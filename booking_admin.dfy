/**
 * The bulk "Cancel selected bookings" action of the booking admin
 * (backend/bookings/admin.py): the selected bookings still CONFIRMED are set
 * to CANCELLED in one update, and the number updated is reported.
 */
module BookingAdmin {
  import opened Wrappers
  import opened TimeOfDay
  import opened Numerals
  import opened ResourceModels
  import opened PricingModels
  import opened BookingModels
  import opened BookingService

  /** What the update does to one booking row: only a selected CONFIRMED booking changes. */
  function CancelOne(b: Booking, selection: set<int>): Booking
  {
    if b.id in selection && b.status == CONFIRMED then b.(status := CANCELLED) else b
  }

  /** The booking table after `queryset.filter(status='CONFIRMED').update(status='CANCELLED')`. */
  function CancelSelected(bookings: seq<Booking>, selection: set<int>): (r: seq<Booking>)
    ensures |r| == |bookings|
  {
    seq(|bookings|, k requires 0 <= k < |bookings| => CancelOne(bookings[k], selection))
  }

  /** The number of selected bookings that are CONFIRMED: the rows the update matches. */
  function CountConfirmedIn(bookings: seq<Booking>, selection: set<int>): nat
  {
    if |bookings| == 0 then 0
    else
      var b := bookings[|bookings| - 1];
      CountConfirmedIn(bookings[..|bookings| - 1], selection) + (if b.id in selection && b.status == CONFIRMED then 1 else 0)
  }

  /** The number of positions at which two tables of equal length differ. */
  function ChangedCount(before: seq<Booking>, after: seq<Booking>): nat
    requires |before| == |after|
  {
    if |before| == 0 then 0
    else
      var n := |before| - 1;
      ChangedCount(before[..n], after[..n]) + (if before[n] != after[n] then 1 else 0)
  }

  /** The message shown to the administrator. */
  function CancelMessage(count: nat): string
  {
    NatToString(count) + " booking(s) successfully cancelled."
  }

  /**
   * Each booking after the action: a selected CONFIRMED booking is CANCELLED
   * with every other field kept; a booking outside the selection, or one
   * not CONFIRMED, is unchanged.
   */
  lemma CancelSelectedEffect(bookings: seq<Booking>, selection: set<int>, k: int)
    requires 0 <= k < |bookings|
    ensures var after := CancelSelected(bookings, selection)[k];
            && (bookings[k].id in selection && bookings[k].status == CONFIRMED ==>
                  after.status == CANCELLED && after.(status := CONFIRMED) == bookings[k])
            && (bookings[k].id !in selection || bookings[k].status != CONFIRMED ==> after == bookings[k])
  {
  }

  /** The action only ever sets bookings to CANCELLED, so the store's invariants hold after it. */
  lemma CancelSelectedIsCancellation(bookings: seq<Booking>, selection: set<int>)
    ensures CancelledFrom(bookings, CancelSelected(bookings, selection))
  {
  }

  /** The action keeps every table invariant and the equipment capacity bound. */
  lemma CancelKeepsInvariants(catalog: Catalog, config: PricingConfig, bookings: seq<Booking>, rows: seq<BookingResource>,
                              nextId: int, selection: set<int>)
    requires TablesValid(catalog, config, bookings, rows, nextId)
    ensures TablesValid(catalog, config, CancelSelected(bookings, selection), rows, nextId)
    ensures WithinCapacity(catalog, bookings, rows) ==> WithinCapacity(catalog, CancelSelected(bookings, selection), rows)
  {
    var after := CancelSelected(bookings, selection);
    CancelSelectedIsCancellation(bookings, selection);
    CancelledFromPreservesValid(catalog, config, bookings, after, rows, nextId);
    if WithinCapacity(catalog, bookings, rows) {
      CancelledFromPreservesCapacity(catalog, bookings, after, rows);
    }
  }

  lemma CountConfirmedSnoc(bookings: seq<Booking>, selection: set<int>, i: int)
    requires 0 <= i < |bookings|
    ensures CountConfirmedIn(bookings[..i + 1], selection)
            == CountConfirmedIn(bookings[..i], selection)
               + (if bookings[i].id in selection && bookings[i].status == CONFIRMED then 1 else 0)
  {
    assert bookings[..i + 1][..i] == bookings[..i];
  }

  lemma CancelSelectedPrefix(bookings: seq<Booking>, selection: set<int>, n: int)
    requires 0 <= n <= |bookings|
    ensures CancelSelected(bookings, selection)[..n] == CancelSelected(bookings[..n], selection)
  {
  }

  /** The count the update returns is the number of bookings the action changes. */
  lemma {:induction false} CountIsNumberChanged(bookings: seq<Booking>, selection: set<int>)
    ensures CountConfirmedIn(bookings, selection) == ChangedCount(bookings, CancelSelected(bookings, selection))
  {
    if |bookings| > 0 {
      var n := |bookings| - 1;
      CountIsNumberChanged(bookings[..n], selection);
      CancelSelectedPrefix(bookings, selection, n);
      CancelledIsNotConfirmed();
    }
  }

  /** A table with no selected CONFIRMED booking left counts 0. */
  lemma {:induction false} NoConfirmedLeftCountsZero(bookings: seq<Booking>, selection: set<int>)
    requires forall k :: 0 <= k < |bookings| ==> bookings[k].id !in selection || bookings[k].status != CONFIRMED
    ensures CountConfirmedIn(bookings, selection) == 0
  {
    if |bookings| > 0 {
      NoConfirmedLeftCountsZero(bookings[..|bookings| - 1], selection);
    }
  }

  /** Running the action twice on the same selection changes nothing more and reports 0. */
  lemma CancelSelectedIdempotent(bookings: seq<Booking>, selection: set<int>)
    ensures CancelSelected(CancelSelected(bookings, selection), selection) == CancelSelected(bookings, selection)
    ensures CountConfirmedIn(CancelSelected(bookings, selection), selection) == 0
  {
    var once := CancelSelected(bookings, selection);
    CancelledIsNotConfirmed();
    assert forall k :: 0 <= k < |once| ==> once[k].id !in selection || once[k].status != CONFIRMED;
    NoConfirmedLeftCountsZero(once, selection);
  }

  /** The message starts with the count in decimal, followed by the fixed text. */
  lemma MessageReportsCount(count: nat)
    ensures var digits := NatToString(count);
            && CancelMessage(count)[..|digits|] == digits
            && DigitsValue(digits) == count
            && CancelMessage(count)[|digits|..] == " booking(s) successfully cancelled."
  {
    NatToStringRoundTrip(count);
  }

  /**
   * Unlike `cancel_booking`, the action checks neither ownership nor start
   * time: a past booking of another user, which `cancel_booking` refuses
   * for a non-staff caller, is cancelled when selected.
   */
  lemma AdminSkipsCancelGuards()
    ensures CancelError([Booking(1, 7, 10, At(9, 0, 0), At(10, 0, 0), 0.0, CONFIRMED)], 1, User(8, false), 11, At(12, 0, 0))
            == Some(PermissionDenied)
    ensures CancelSelected([Booking(1, 7, 10, At(9, 0, 0), At(10, 0, 0), 0.0, CONFIRMED)], {1})[0].status == CANCELLED
    ensures CountConfirmedIn([Booking(1, 7, 10, At(9, 0, 0), At(10, 0, 0), 0.0, CONFIRMED)], {1}) == 1
  {
    var b := Booking(1, 7, 10, At(9, 0, 0), At(10, 0, 0), 0.0, CONFIRMED);
    assert FindBookingIndex([b], 1) == Some(0);
    assert [b][..0] == [];
  }

  /**
   * `BookingAdmin.cancel_bookings`: one pass over the table setting each
   * selected CONFIRMED booking to CANCELLED, counting the rows updated.
   */
  method CancelBookings(store: BookingStore, selection: set<int>) returns (count: nat)
    requires store.Valid()
    modifies store`bookings
    ensures store.bookings == CancelSelected(old(store.bookings), selection)
    ensures count == CountConfirmedIn(old(store.bookings), selection)
    ensures store.Valid()
    ensures old(store.Capacity()) ==> store.Capacity()
  {
    ghost var before := store.bookings;
    count := 0;
    var i := 0;
    while i < |store.bookings|
      invariant 0 <= i <= |before| == |store.bookings|
      invariant forall k :: 0 <= k < i ==> store.bookings[k] == CancelOne(before[k], selection)
      invariant forall k :: i <= k < |before| ==> store.bookings[k] == before[k]
      invariant count == CountConfirmedIn(before[..i], selection)
    {
      var b := store.bookings[i];
      CountConfirmedSnoc(before, selection, i);
      if b.id in selection && b.status == CONFIRMED {
        store.bookings := store.bookings[i := b.(status := CANCELLED)];
        count := count + 1;
      }
      i := i + 1;
    }
    assert before[..i] == before;
    assert store.bookings == CancelSelected(before, selection);
    CancelKeepsInvariants(store.catalog, store.config, before, store.resources, store.nextId, selection);
  }
}
