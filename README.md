# CourtBook booking core, modelled in Dafny

CourtBook is a Django backend for booking sports-facility courts, with rentable
equipment and coaches as add-ons. This project models its booking core:

- **Resources** (`ResourceModels`). Courts, equipment with total and available
  stock, coaches, and coach schedules. It also models the `Equipment.save`
  clamp and the schedule validation.
- **Bookings** (`BookingModels`). The booking and booking-resource rows, their
  defaults and `clean()` validation, `get_resource_object`, and the
  `-date, -start_time` ordering.
- **Pricing configuration** (`PricingModels`). Surcharge rules (peak hour,
  weekend, indoor court) and the base hourly prices, with their rendering as
  text.
- **Availability** (`AvailabilityService`). Whether a court, a coach or a
  quantity of equipment is free for an interval, and the lists of free courts,
  free coaches and free equipment.
- **Pricing** (`PricingService`). Base price lookup with its fallbacks, the
  duration, the peak, weekend and indoor predicates, rule application, and the
  full price breakdown of a booking.
- **Booking transactions** (`BookingService`). Creating a booking, which runs
  all checks in the code's order and then writes the booking and its resource
  rows all or nothing. Cancelling a booking, with its permission, status and
  start-time guards. Listing one user's bookings. The database is the class
  `BookingStore`. It has the booking table and the resource-row table as
  fields. Its invariant `Valid()` says:
  - ids ascending;
  - no court or coach double-booked.

  A separate predicate, `Capacity()`, says no equipment item is over its stock
  at any instant. `CreateBooking` keeps `Capacity()` only for requests whose
  equipment ids are distinct, because the code can overbook otherwise (see
  Findings). Cancelling, one by one or in bulk, always keeps it.
- **Daily grid** (`BookingViews`). The 06:00–22:00 availability matrix of
  every active court, and the `HH:MM[:SS]` time parser of the add-on view.
- **Admin bulk cancel** (`BookingAdmin`). The "Cancel selected bookings" action
  and the message it reports.

Modelling conventions:

- A time of day is a whole number of seconds since midnight (`Time`). A date is
  its proleptic ordinal, so `Weekday(d) == (d + 6) % 7` gives Monday as 0.
- Choice columns are strings. The set of choices is a validity predicate,
  because Django does not enforce choices on `create()`.
- Two-decimal-place configuration amounts are integer cents. Computed prices
  are `real`.
- Queries that join bookings with their resource rows return a booking once per
  matching row, as the ORM's join does. The equipment sum in
  `check_equipment_availability` is therefore a sum over rows
  (`BookedQuantity`).
- `is_peak_hour` tests 18:00–21:00 by interval overlap. Its docstring says
  22:00, and the design description says the start time must fall inside the
  window. The model follows the code (`PricingService.PeakWindowClosesAt21`).
- The design description calls for rejecting reservations outside 06:00–22:00.
  The code checks those bounds only for a coach without a schedule for the day.
  The model follows the code.

## Model

| member | source | states |
|---|---|---|
| TimeOfDay.OverlapsIffCommonInstant | backend/resources/services/availability_service.py:45 | the half-open overlap test `start < other.end && other.start < end` holds exactly when the two intervals share an instant |
| TimeOfDay.BackToBackSlotsDoNotOverlap | backend/resources/services/availability_service.py:45 | 10–11 and 11–12 do not conflict, and 10–11 conflicts with itself |
| TimeOfDay.Weekday | backend/pricing/services/pricing_service.py:53-55 | `date.weekday()` of an ordinal is in 0..6 |
| ResourceModels.NewCourt | backend/resources/models.py:4-16 | a court created with only id and name is INDOOR and active |
| ResourceModels.Clamp | backend/resources/models.py:41-45 | the saved available quantity is at most the total and at most the old value, and is one of the two |
| ResourceModels.ClampIdempotent | backend/resources/models.py:41-45 | saving twice is the same as saving once; a quantity within stock is kept |
| ResourceModels.EquipmentRecord.constructor | backend/resources/models.py:25-33 | the new equipment record holds the given fields |
| ResourceModels.EquipmentRecord.Save | backend/resources/models.py:41-45 | `save()` clamps the available quantity to the total, keeps a value already within stock, and writes the row |
| ResourceModels.CleanAvailability | backend/resources/models.py:81-85 | a schedule fails validation exactly when both times are set and start is not before end |
| ResourceModels.UniqueAvailabilityCount | backend/resources/models.py:76 | with (coach, date, start) unique, the schedule has as many keys as rows |
| ResourceModels.FindCourt | backend/pricing/services/pricing_service.py:58-64 | the lookup returns a court with the id, and fails exactly when no court has it |
| ResourceModels.FindActiveCourt | backend/bookings/services/booking_service.py:63-66 | `get(id=..., is_active=True)` returns an active court with the id, and fails exactly when there is none |
| ResourceModels.FindCoach | backend/bookings/models.py:66-82 | the lookup returns a coach with the id, and fails exactly when none has it |
| ResourceModels.FindActiveCoach | backend/resources/services/availability_service.py:60-63 | the active-coach lookup returns an active coach with that id, or fails exactly when there is none |
| ResourceModels.FindEquipment | backend/bookings/services/booking_service.py:80-83 | the lookup returns an item with the id, and fails exactly when none has it |
| ResourceModels.FindEquipmentAt | backend/resources/services/availability_service.py:177-211 | with ids ascending, looking up an item's id finds that item |
| PricingModels.NewRule | backend/pricing/models.py:14-26 | a rule created with kind and value is a percentage, active, with an empty description |
| PricingModels.AtMostOneRulePerKind | backend/pricing/models.py:14 | unique kinds drawn from three choices give at most three rules, one per kind |
| PricingModels.DecimalTextRoundTrip | backend/pricing/models.py:33-36 | the two-decimal text of an amount reads back as the same amount |
| PricingModels.RuleStringDecodes | backend/pricing/models.py:33-36 | `__str__` is the label, ": +", then an amount that decodes to the rule's value; it ends in '%' exactly for a percentage rule |
| BookingModels.NewBooking | backend/bookings/models.py:7-26 | a new booking holds the given fields and is CONFIRMED |
| BookingModels.CleanBooking | backend/bookings/models.py:34-42 | validation passes exactly when start is before end and the date is not past, and reports which check failed first |
| BookingModels.NewResource | backend/bookings/models.py:45-57 | a resource row created without a quantity has quantity 1 |
| BookingModels.GetResourceObject | backend/bookings/models.py:66-82 | an unknown tag gives None; for each tag the object is the catalog entry with that id, and None exactly when there is none |
| BookingModels.RowsFor | backend/resources/services/availability_service.py:129-137 | the rows the join matches are exactly the rows of that booking, tag and resource |
| BookingModels.RowsForAppend | backend/resources/services/availability_service.py:129-137 | the join over concatenated row tables is the concatenation of the joins |
| BookingModels.RowsForOtherBooking | backend/bookings/services/booking_service.py:125-159 | adding rows of another booking does not change a booking's join |
| BookingModels.TotalQuantityAppend | backend/resources/services/availability_service.py:141-145 | the quantity sum over concatenated rows is the sum of the two sums |
| BookingModels.ResourcesOf | backend/bookings/views.py:345 | `booking.resources.all()` is exactly the rows of that booking |
| BookingModels.Insert | backend/bookings/models.py:29 | inserting into a newest-first list keeps it newest first and adds exactly that booking |
| BookingModels.OrderNewestFirst | backend/bookings/models.py:29 | the default ordering (-date, -start_time) is a sorted permutation of the table |
| AvailabilityService.CheckCourtAvailability | backend/resources/services/availability_service.py:17-51 | a court is free exactly when it exists and is active and no CONFIRMED booking holding it on that date overlaps, apart from the excluded one |
| AvailabilityService.CheckCoachAvailability | backend/resources/services/availability_service.py:54-101 | a free coach is active and the interval lies within that day's schedule, or within 06:00–22:00 when there is none, with no conflicting booking; a refusal names which of the three failed |
| AvailabilityService.CheckEquipmentAvailability | backend/resources/services/availability_service.py:104-149 | the item is found, its available stock covers the quantity, and total minus the booked sum over overlapping bookings covers it |
| AvailabilityService.CoveringAtMostBooked | backend/resources/services/availability_service.py:129-145 | the quantity held at any instant of the interval is at most the sum the query computes |
| AvailabilityService.CoveringBookingAtMostJoined | backend/resources/services/availability_service.py:129-145 | per booking, the quantity it holds at an instant is at most what the join counts for it |
| AvailabilityService.CancelledNeverBlocks | backend/resources/services/availability_service.py:37-46 | adding a CANCELLED booking changes no availability answer and no booked sum |
| AvailabilityService.ExcludedBookedQuantity | backend/resources/services/availability_service.py:138-139 | excluding a (non-zero) booking id is the same as removing that booking from the table |
| AvailabilityService.ExcludedNoBlocking | backend/resources/services/availability_service.py:48-49 | excluding a booking id gives the same conflict answer as removing that booking |
| AvailabilityService.WithoutBookingMembers | backend/resources/services/availability_service.py:48-49 | removing a booking id keeps exactly the other bookings |
| AvailabilityService.AvailableCourts | backend/resources/services/availability_service.py:152-161 | the list holds exactly the active courts that pass the court check, and is in name order when the courts walked are |
| AvailabilityService.GetAvailableCourts | backend/resources/services/availability_service.py:152-161 | the loop walks the courts in name order and returns the active courts with no CONFIRMED overlapping booking, in name order |
| AvailabilityService.AvailableCourtsAreFree | backend/resources/services/availability_service.py:152-161 | a court is listed exactly when it is in the catalog, active and free of conflicts |
| AvailabilityService.AvailableCoaches | backend/resources/services/availability_service.py:164-174 | the list holds exactly the active coaches that pass the coach check, and is in name order when the coaches walked are |
| AvailabilityService.GetAvailableCoaches | backend/resources/services/availability_service.py:164-174 | the loop walks the coaches in name order and returns, in name order, the active coaches whose schedule admits the interval and who have no conflict |
| AvailabilityService.GetEquipmentAvailability | backend/resources/services/availability_service.py:177-211 | one entry per item, every item listed, in name order, with total stock and available = total minus booked, unclamped |
| AvailabilityService.CoachGranularityExample | backend/scripts/test_coach_granularity.py:80-95 | a coach booked 10–11 is busy 10–11 and free 11–12 |
| AvailabilityService.SequentialBookingsCountedTogether | backend/resources/services/availability_service.py:129-149 | two back-to-back bookings of 2 of 2 rackets never hold more than 2 at once, yet a 10–12 request for 1 is refused (the sum covers the whole interval) |
| PricingService.FindActiveBasePrice | backend/pricing/services/pricing_service.py:20 | the lookup returns an active row of the category, and fails exactly when there is none |
| PricingService.GetBasePrice | backend/pricing/services/pricing_service.py:17-29 | the active row's price wins; without one, the defaults 50, 10 and 75 apply, and 0 for an unknown category; never negative |
| PricingService.DurationHours | backend/pricing/services/pricing_service.py:32-38 | hours times 3600 is the length in seconds, and is positive for a proper interval |
| PricingService.IsPeakHour | backend/pricing/services/pricing_service.py:41-50 | peak exactly when the interval overlaps 18:00–21:00 |
| PricingService.PeakWindowClosesAt21 | backend/pricing/services/pricing_service.py:44-50 | 20–21 and 17–19 are peak; 21–22 and 17–18 are not |
| PricingService.IsWeekend | backend/pricing/services/pricing_service.py:53-55 | weekend exactly on Saturday and Sunday |
| PricingService.IsIndoorCourt | backend/pricing/services/pricing_service.py:58-64 | indoor exactly when the court with that id exists and is INDOOR |
| SeqFacts.SortBy | backend/resources/models.py:19 | a query under `Meta.ordering` on one character field returns the rows reordered (same multiset) with the keys ascending |
| PricingService.ActiveRules | backend/pricing/services/pricing_service.py:87 | a rule is kept exactly when it is in the table and active, and none occurs more often than in the table |
| PricingService.ActiveRulesAppend | backend/pricing/services/pricing_service.py:87 | the filter distributes over concatenation, so kept rules stay in their relative order |
| PricingService.QueriedRules | backend/pricing/models.py:30-31 | the rules the loop iterates are the active rules, reordered so that their kinds ascend |
| PricingService.QueryOrderNeverChangesSums | backend/pricing/services/pricing_service.py:87-110 | both totals over the queried rules equal the totals over the whole table |
| PricingService.AppliedRulesKeepKindOrder | backend/pricing/services/pricing_service.py:100-105 | rules checked in a strict kind order list their summaries in the same order |
| PricingService.AppliedRulesInKindOrder | backend/pricing/models.py:31 | with a valid rule table, the applied list holds the indoor premium, then the peak-hour surcharge, then the weekend surcharge, each at most once |
| PricingService.QueriedAppliedMembers | backend/pricing/services/pricing_service.py:87-105 | a summary is in the applied list exactly when some rule of the table applies and has that summary |
| PricingService.AppliedRulesOrderExample | backend/pricing/services/pricing_service.py:87-105 | a table holding the peak rule before the indoor rule lists the indoor premium first on a Monday evening on the indoor court |
| PricingModels.KindOrderIsRank | backend/pricing/models.py:7-11 | ordered by their stored strings, the three kinds come as INDOOR_COURT, PEAK_HOUR, WEEKEND |
| PricingModels.RulesValidSubMultiset | backend/pricing/models.py:14 | any selection of a valid rule table, in any order, still has unique, valid kinds |
| PricingService.RuleSumPermutation | backend/pricing/services/pricing_service.py:107-110 | the surcharge totals do not depend on the order the rules are read in |
| PricingService.PriceIsOrderIndependent | backend/pricing/services/pricing_service.py:107-115 | the adjusted price is the same for any permutation of the rules |
| PricingService.InactiveRulesNeverContribute | backend/pricing/services/pricing_service.py:87 | inactive rules add nothing to either total |
| PricingService.InactiveRulesNeverListed | backend/pricing/services/pricing_service.py:87-105 | inactive rules never appear among the applied rules |
| PricingService.NoApplicableRuleKeepsBase | backend/pricing/services/pricing_service.py:89-117 | with no applicable rule the price is the base and nothing is listed |
| PricingService.IndoorRuleNeedsCourt | backend/pricing/services/pricing_service.py:97-98 | the indoor rule never applies without a court id |
| PricingService.RuleSumNonNegative | backend/pricing/models.py:15-20 | with valid (non-negative) rule values, both totals are non-negative |
| PricingService.AdjustedPriceAtLeastBase | backend/pricing/services/pricing_service.py:114-115 | with valid rules and a non-negative base, the adjusted price is at least the base |
| PricingService.AppliedRulesMembers | backend/pricing/services/pricing_service.py:100-105 | a summary is listed exactly when some rule applies and has that summary |
| PricingService.AppliedRulesListedOnce | backend/pricing/services/pricing_service.py:100-105 | with unique rule kinds, no applied-rule summary is listed twice |
| PricingService.SumApplicableRules | backend/pricing/services/pricing_service.py:89-110 | the loop's totals and applied list are the per-rule sums and the list of applying rules |
| PricingService.ApplyPricingRules | backend/pricing/services/pricing_service.py:67-117 | `base * (1 + pct/100) + fixed` over the active applying rules, with their summaries in the query's kind order |
| PricingService.KnownItems | backend/pricing/services/pricing_service.py:171-188 | a requested item is kept exactly when it is requested and its id names an equipment row |
| PricingService.KnownItemsAppend | backend/pricing/services/pricing_service.py:171 | the filter distributes over concatenation, so known items keep their request order |
| PricingService.EquipmentLine | backend/pricing/services/pricing_service.py:172-188 | a line is charged exactly when the item exists, and it carries the item's id, the row's name, the requested quantity, the per-hour rate and rate × hours × quantity |
| PricingService.EquipmentCharges | backend/pricing/services/pricing_service.py:170-188 | one line per requested item with a known id, in request order, each with that item's id, row name and quantity at the per-hour rate, totalling rate × hours × quantity |
| PricingService.CoachChargeFor | backend/pricing/services/pricing_service.py:191-206 | a coach line exists exactly for a truthy id of an active coach, and carries that id, the coach's name, the per-hour rate and rate × hours |
| PricingService.PriceEquipment | backend/pricing/services/pricing_service.py:170-188 | the loop builds the charge lines of the found items and their total |
| PricingService.CalculateBookingPrice | backend/pricing/services/pricing_service.py:120-208 | the breakdown's duration, per-hour court rate, court base total, court final price, applied rules (in kind order), equipment lines, coach line and total are each as specified |
| PricingService.UnknownEquipmentSkipped | backend/pricing/services/pricing_service.py:187-188 | an unknown equipment id adds no line and no cost |
| PricingService.ChargesTotalNonNegative | backend/pricing/services/pricing_service.py:186 | non-negative lines sum to a non-negative total |
| PricingService.HourlyChargeNonNegative | backend/pricing/services/pricing_service.py:176 | non-negative rates and hours give non-negative charges |
| PricingService.BookingPriceNonNegative | backend/pricing/services/pricing_service.py:120-208 | with a valid configuration, every booking price is non-negative |
| PricingService.ExampleConfigValid | backend/scripts/setup_pricing_rules.py:20-53 | the seeded configuration (Peak +10%, Weekend +15%, Indoor +5%) is valid |
| PricingService.ExampleCourtPrice | backend/pricing/services/pricing_service.py:142-154 | a 19:00–20:00 booking of the indoor court at 200/h costs 200 × (1 + percentage/100) |
| PricingService.StackedSurchargesWeekday | backend/pricing/services/pricing_service.py:114-115 | on a weekday, peak and indoor stack to 230 |
| PricingService.StackedSurchargesWeekend | backend/pricing/services/pricing_service.py:114-115 | on a Saturday, peak, weekend and indoor stack to 260 |
| BookingService.EquipmentRows | backend/bookings/services/booking_service.py:144-150 | one EQUIPMENT row per requested line, with its id and quantity, in order |
| BookingService.EquipmentErrorAppend | backend/bookings/services/booking_service.py:75-92 | the first failing line of a split request is the first of the first part, else the first of the second |
| BookingService.EquipmentErrorNone | backend/bookings/services/booking_service.py:75-92 | the equipment loop passes exactly when every line passes on its own |
| BookingService.DecidePassedChecks | backend/bookings/services/booking_service.py:53-105 | when no check fails: start before end, date not past, court free, coach free if given |
| BookingService.CreateSucceededChecks | backend/bookings/services/booking_service.py:53-105 | a successful create has passed every check, including each equipment line against the persisted bookings |
| BookingService.RequestedQuantityDistinct | backend/bookings/services/booking_service.py:75-92 | with distinct ids, the quantity requested for an item is that item's line quantity |
| BookingService.NewRowsCourt | backend/bookings/services/booking_service.py:136-141 | the only COURT row written is the requested court |
| BookingService.NewRowsCoach | backend/bookings/services/booking_service.py:153-159 | a COACH row is written only for a truthy coach id, and is that coach |
| BookingService.NewRowsHeld | backend/bookings/services/booking_service.py:143-150 | the new booking holds, per item, the sum of the quantities requested for it |
| BookingService.AppendPreservesCapacity | backend/bookings/services/booking_service.py:125-159 | adding a booking whose held quantities fit beside the booked sums keeps every item within stock at every instant |
| BookingService.AppendPreservesExclusive | backend/bookings/services/booking_service.py:125-159 | adding a booking whose court or coach is free keeps that kind free of double bookings |
| BookingService.CreatePreservesValid | backend/bookings/services/booking_service.py:24-167 | a create that passes its checks keeps every table invariant |
| BookingService.CreatePreservesCapacity | backend/bookings/services/booking_service.py:74-92 | with distinct equipment ids, a successful create keeps every item within stock |
| BookingService.CombinedAgreesOnLines | backend/bookings/services/booking_service.py:75-92 | checking the summed quantity per item agrees with the per-line check when each line already carries its sum |
| BookingService.CorrectedAgreesWhenDistinct | backend/bookings/services/booking_service.py:75-92 | for distinct ids, the corrected check decides exactly as the code does |
| BookingService.CorrectedCreatePreservesCapacity | backend/bookings/services/booking_service.py:74-92 | with quantities summed per item, a create that passes keeps every item within stock, even with repeated ids |
| BookingService.DuplicateLinesAccepted | backend/bookings/services/booking_service.py:75-92 | two lines of 2 of a 2-racket stock pass the per-line check on empty tables |
| BookingService.DuplicateLinesOverbook | backend/bookings/services/booking_service.py:143-150 | after writing those lines, 4 rackets of 2 are held |
| BookingService.DuplicateLinesRefusedWhenCombined | backend/bookings/services/booking_service.py:75-92 | the corrected check refuses that request for item 1, quantity 4 |
| BookingService.FindBookingIndex | backend/bookings/services/booking_service.py:185-188 | the lookup finds a booking with that id, and fails exactly when none has it |
| BookingService.CancelAccepted | backend/bookings/services/booking_service.py:185-210 | a cancel that passes its guards targets an existing CONFIRMED booking, owned by the user or the user is staff, not yet started |
| BookingService.WithStatus | backend/bookings/services/booking_service.py:213-214 | the update changes only the status of that one booking |
| BookingService.CoveringNotIncreased | backend/bookings/services/booking_service.py:213-214 | cancelling never raises the quantity held at any instant |
| BookingService.CancelledFromPreservesValid | backend/bookings/services/booking_service.py:213-214 | cancelling bookings keeps every table invariant |
| BookingService.CancelledFromPreservesCapacity | backend/bookings/services/booking_service.py:213-214 | cancelling bookings keeps every item within stock |
| BookingService.CancelFreesResource | backend/bookings/services/booking_service.py:213-214 | cancelling the only conflicting booking makes the resource free |
| BookingService.BookingsOf | backend/bookings/services/booking_service.py:222-238 | the filter keeps exactly the user's bookings, and only those with the given status when a status is given |
| BookingService.UserBookings | backend/bookings/services/booking_service.py:222-238 | the result is those bookings, newest first, each exactly as often as in the table |
| BookingService.CheckEquipmentLines | backend/bookings/services/booking_service.py:74-92 | the loop's outcome is the first failing line's error, and on success it keeps every line |
| BookingService.BookingStore.constructor | backend/bookings/models.py:7-82 | an empty store is valid and within capacity |
| BookingService.BookingStore.CheckRequest | backend/bookings/services/booking_service.py:53-105 | the checks return exactly the error the code raises, or none |
| BookingService.BookingStore.InsertBooking | backend/bookings/services/booking_service.py:125-159 | the booking and its court, equipment and coach rows are appended and the id counter advances |
| BookingService.BookingStore.CreateBooking | backend/bookings/services/booking_service.py:24-167 | fails exactly when a check fails, with that error and nothing written; otherwise writes the priced booking and its rows; keeps the invariants, and keeps capacity for distinct ids |
| BookingService.BookingStore.CancelBooking | backend/bookings/services/booking_service.py:171-219 | fails exactly when a guard fails, with that error and nothing changed; otherwise sets that CONFIRMED booking to CANCELLED; keeps the invariants and capacity |
| BookingViews.ActiveCourtsFacts | backend/bookings/views.py:326 | the active courts are exactly the catalog's active courts, in id order |
| BookingViews.SlotEnd | backend/bookings/views.py:372-373 | the slot end is one hour later, wrapping past midnight |
| BookingViews.ConfirmedOn | backend/bookings/views.py:329-331 | exactly the CONFIRMED bookings of that date |
| BookingViews.JoinCourtRows | backend/bookings/views.py:329-333 | the join keeps exactly the bookings with a COURT row |
| BookingViews.DayQueryMembers | backend/bookings/views.py:329-333 | the day query holds exactly the CONFIRMED bookings of that date with a COURT row |
| BookingViews.CopiesIffHasRow | backend/bookings/views.py:345-347 | a booking is filed under a court exactly when it has a COURT row for it |
| BookingViews.ListedMembers | backend/bookings/views.py:342-347 | a court's list holds exactly the day's bookings with a COURT row for it |
| BookingViews.CourtListMembers | backend/bookings/views.py:329-347 | a court's list holds exactly the CONFIRMED bookings of that date holding that court |
| BookingViews.AppendBooking | backend/bookings/views.py:345-347 | filing one booking extends each court's list by its copies and adds no key |
| BookingViews.BookingsByCourt | backend/bookings/views.py:342-347 | the map has one key per active court, each holding that court's list |
| BookingViews.FirstCoveringFacts | backend/bookings/views.py:365-368 | the scan finds the first booking covering the slot start, and finds none exactly when none covers it |
| BookingViews.FindCovering | backend/bookings/views.py:362-368 | the loop with `break` returns the first covering booking |
| BookingViews.ComputeSlots | backend/bookings/views.py:359-389 | the slot loop builds the 17 slots of the grid row |
| BookingViews.ComputeRows | backend/bookings/views.py:355-395 | one row per active court, each the court's grid row |
| BookingViews.DailyAvailability | backend/bookings/views.py:315-397 | the view's result is the daily grid |
| BookingViews.GridCourts | backend/bookings/views.py:355-395 | one row per active court, in order, with its id and name |
| BookingViews.GridListsEveryActiveCourt | backend/bookings/views.py:326 | every active court has a row |
| BookingViews.GridAscending | backend/bookings/views.py:326 | rows are in ascending court id |
| BookingViews.GridSlotTimes | backend/bookings/views.py:336-338 | every row has 17 slots, at 06:00, 07:00, …, 22:00 |
| BookingViews.SlotBookedIff | backend/bookings/views.py:362-389 | a slot is booked exactly when a CONFIRMED booking of that date holding the court covers its start; it then reports that booking's id and ownership, and otherwise none |
| BookingViews.SlotReportsTheBooking | backend/bookings/views.py:362-389 | with no double booking, a booked slot reports the one booking that covers it |
| BookingViews.SlotPriceIndependentOfBookings | backend/bookings/views.py:372-381 | a slot's price is the rule-adjusted base for that hour, whatever the bookings or the user, and at least the base |
| BookingViews.PeakSlots | backend/bookings/views.py:372-381 | exactly the 18:00, 19:00 and 20:00 slots are peak |
| BookingViews.ParseTimeRoundTrip | backend/bookings/views.py:428-432 | `HH:MM:SS` text of a time parses back to it |
| BookingViews.ParseTimeFallback | backend/bookings/views.py:431-432 | `HH:MM` text falls back to the second format and parses to that time |
| BookingViews.ParseTimeAccepts | backend/bookings/views.py:428-432 | "9:5" and "18:30:00" parse |
| BookingViews.ParseTimeRejectsRanges | backend/bookings/views.py:428-432 | hour 24 and minute 60 are rejected |
| BookingViews.ParseTimeRejectsLeapSecond | backend/bookings/views.py:430 | second 60 is rejected |
| BookingViews.ParseTimeRejectsShape | backend/bookings/views.py:428-432 | trailing text, a wrong separator and the empty string are rejected |
| BookingAdmin.CancelSelected | backend/bookings/admin.py:49-50 | the update keeps the table's length |
| BookingAdmin.CancelSelectedEffect | backend/bookings/admin.py:49-50 | a selected CONFIRMED booking becomes CANCELLED with its other fields kept; every other booking is unchanged |
| BookingAdmin.CancelKeepsInvariants | backend/bookings/admin.py:49-50 | the bulk update keeps every table invariant and the capacity bound |
| BookingAdmin.CountIsNumberChanged | backend/bookings/admin.py:50 | the reported count is the number of bookings the update changed |
| BookingAdmin.CancelSelectedIdempotent | backend/bookings/admin.py:49-50 | running the action twice changes nothing more and counts 0 the second time |
| BookingAdmin.MessageReportsCount | backend/bookings/admin.py:51 | the message starts with the count in decimal, followed by the fixed text |
| BookingAdmin.AdminSkipsCancelGuards | backend/bookings/admin.py:47-51 | the action cancels another user's past booking that `cancel_booking` refuses with a permission error |
| BookingAdmin.CancelBookings | backend/bookings/admin.py:47-51 | one pass sets each selected CONFIRMED booking to CANCELLED and counts them; keeps the invariants and capacity |

## Left out

- Concurrency: `transaction.atomic` and `select_for_update` are not modelled.
  `BookingStore.CreateBooking` is one sequential call, and what is kept of
  atomicity is that a failed create leaves the store unchanged.
- HTTP views other than the daily grid and the time parser: serializers,
  authentication, response shapes and status codes. The date in
  `YYYY-MM-DD` form enters as an ordinal.
- Floating point and `Decimal(str(float))` rounding: prices are exact
  `real`s.
- The clock and the timezone: "today" and "now" are parameters.
- Collations: every `ORDER BY` on a character field (court, coach and
  equipment names, rule kinds) is taken as code-point order (`StringLe`), as
  under a binary collation. A database whose collation folds case or follows a
  locale may list names in another order. The three rule kinds are upper-case
  ASCII, so their order is the same under common collations.
- Ties in name order: coach and equipment names are not unique, and
  `ORDER BY name` leaves rows with equal names in whatever order the database
  returns them. `SortBy` is stable, so the model lists them in table (id)
  order, and `GetAvailableCoaches` and `GetEquipmentAvailability` promise that
  order.
- Timestamps: `created_at` and `updated_at` of every model are not modelled.
  Hence the model does not show that `cancel_booking`'s `save()` refreshes a
  booking's `updated_at` while the admin action's `update()` leaves it as it
  was, a difference between the two cancel paths set side by side in
  `BookingAdmin.AdminSkipsCancelGuards`.
- The order of ties in the grid's booking query, which has no `order_by`: the
  model takes table order.
- `strptime`'s acceptance of non-ASCII digits: only '0'–'9' are digits.
- The `ordering` of `BookingResource` rows, which no modelled code depends on.
- Equipment stock is never decremented by a booking, as in the code; no stock
  update is modelled beyond `Equipment.save`.
- The corrected equipment check is proved beside the code's check but is not
  what `BookingStore.CreateBooking` runs, since the store models the code as
  written.
- `message_user` output: only the message text is modelled.
- `BookingAdmin.CancelBookings` models the single SQL `update()` as a pass over
  the table.
- `__str__` of models other than `PricingRule`, admin list displays, management
  commands and seed scripts.
- BookingService.BookingStore.CreateBooking: keeps the capacity invariant only
  for requests with distinct equipment ids, because with a repeated id the code
  can overbook (see Findings).

## Findings

| source | as written | input that shows it | evidently intended | confidence | as-written member | corrected member |
|---|---|---|---|---|---|---|
| backend/bookings/services/booking_service.py:75-92 | each equipment line is checked on its own against persisted bookings only, so two lines for the same item are never added together | stock 2 of item 1, no bookings, `equipment_list = [{id 1, qty 2}, {id 1, qty 2}]`: both lines pass, and 4 rackets are booked | the quantities requested for one item are summed before the check, and the request is refused | not executed | BookingService.DuplicateLinesOverbook | BookingService.CorrectedCreatePreservesCapacity |
