/**
 * The resource registry: courts, coaches, equipment items and coach
 * availability records (backend/resources/models.py).
 */
module ResourceModels {
  import opened Wrappers
  import opened TimeOfDay
  import opened SeqFacts

  const INDOOR := "INDOOR"
  const OUTDOOR := "OUTDOOR"

  /** A row of the court table; `courtType` holds the stored choice string. */
  datatype Court = Court(id: int, name: string, courtType: string, isActive: bool)

  /** A court created with only its name: the field defaults apply. */
  function NewCourt(id: int, name: string): (c: Court)
    ensures c.id == id && c.name == name
    ensures c.courtType == INDOOR && c.isActive
  {
    Court(id, name, INDOOR, true)
  }

  predicate ValidCourtType(t: string)
  {
    t == INDOOR || t == OUTDOOR
  }

  /** A persisted equipment row; both counters are unsigned columns. */
  datatype Equipment = Equipment(id: int, name: string, totalQuantity: nat, availableQuantity: nat)

  /** The clamp `Equipment.save` applies to the available counter: the smaller of the two counters. */
  function Clamp(available: nat, total: nat): (r: nat)
    ensures r <= total && r <= available
    ensures r == available || r == total
  {
    if available > total then total else available
  }

  /** Clamping is idempotent: a second save changes nothing. */
  lemma ClampIdempotent(available: nat, total: nat)
    ensures Clamp(Clamp(available, total), total) == Clamp(available, total)
    ensures available <= total ==> Clamp(available, total) == available
  {
  }

  /** An equipment model instance whose counters are edited before it is saved. */
  class EquipmentRecord {
    const id: int
    var name: string
    var totalQuantity: nat
    var availableQuantity: nat

    constructor (id: int, name: string, totalQuantity: nat, availableQuantity: nat)
      ensures this.id == id && this.name == name
      ensures this.totalQuantity == totalQuantity && this.availableQuantity == availableQuantity
    {
      this.id := id;
      this.name := name;
      this.totalQuantity := totalQuantity;
      this.availableQuantity := availableQuantity;
    }

    /** `Equipment.save`: lower the available counter to the total if it exceeds it, then persist. */
    method Save() returns (row: Equipment)
      modifies this`availableQuantity
      ensures availableQuantity == Clamp(old(availableQuantity), totalQuantity)
      ensures availableQuantity <= totalQuantity
      ensures old(availableQuantity) <= totalQuantity ==> availableQuantity == old(availableQuantity)
      ensures row == Equipment(id, name, totalQuantity, availableQuantity)
    {
      if availableQuantity > totalQuantity {
        availableQuantity := totalQuantity;
      }
      row := Equipment(id, name, totalQuantity, availableQuantity);
    }
  }

  datatype Coach = Coach(id: int, name: string, isActive: bool)

  /** One window in which a coach can be booked on one date. */
  datatype CoachAvailability = CoachAvailability(coachId: int, date: Date, startTime: Time, endTime: Time)

  datatype ValidationError = StartNotBeforeEnd | DateInPast

  /**
   * `CoachAvailability.clean`: a window whose two times are both present must
   * start strictly before it ends; a window with a missing time is not judged.
   */
  function CleanAvailability(startTime: Option<Time>, endTime: Option<Time>): (r: Outcome<ValidationError>)
    ensures r.Fail? ==> r.error == StartNotBeforeEnd
    ensures r.Fail? <==> startTime.Some? && endTime.Some? && startTime.value >= endTime.value
    ensures startTime.None? || endTime.None? ==> r.Pass?
  {
    if startTime.Some? && endTime.Some? && startTime.value >= endTime.value then Fail(StartNotBeforeEnd)
    else Pass
  }

  /** The `unique_together` key of an availability record. */
  function AvailabilityKey(a: CoachAvailability): (int, Date, Time)
  {
    (a.coachId, a.date, a.startTime)
  }

  /** At most one availability record per (coach, date, start time). */
  predicate UniqueAvailability(recs: seq<CoachAvailability>)
  {
    forall i, j :: 0 <= i < j < |recs| ==> AvailabilityKey(recs[i]) != AvailabilityKey(recs[j])
  }

  /** Under the uniqueness constraint, the keys identify the records one to one. */
  lemma UniqueAvailabilityCount(recs: seq<CoachAvailability>)
    requires UniqueAvailability(recs)
    ensures |set a | a in recs :: AvailabilityKey(a)| == |recs|
  {
    var keys := seq(|recs|, i requires 0 <= i < |recs| => AvailabilityKey(recs[i]));
    assert Distinct(keys);
    DistinctCard(keys);
    assert (set a | a in recs :: AvailabilityKey(a)) == (set k | k in keys) by {
      forall a | a in recs ensures AvailabilityKey(a) in keys {
        var i :| 0 <= i < |recs| && recs[i] == a;
        assert keys[i] == AvailabilityKey(a);
      }
    }
  }

  /** Primary keys appear in ascending order (the table is kept in id order). */
  predicate CourtIdsAscending(courts: seq<Court>)
  {
    forall i, j :: 0 <= i < j < |courts| ==> courts[i].id < courts[j].id
  }

  predicate CoachIdsAscending(coaches: seq<Coach>)
  {
    forall i, j :: 0 <= i < j < |coaches| ==> coaches[i].id < coaches[j].id
  }

  predicate EquipmentIdsAscending(items: seq<Equipment>)
  {
    forall i, j :: 0 <= i < j < |items| ==> items[i].id < items[j].id
  }

  /** The sort keys of `Meta.ordering = ['name']` on the court, coach and equipment tables. */
  function CourtName(c: Court): string { c.name }

  function CoachName(c: Coach): string { c.name }

  function EquipmentName(e: Equipment): string { e.name }

  /** The resource tables. */
  datatype Catalog = Catalog(
    courts: seq<Court>,
    coaches: seq<Coach>,
    equipment: seq<Equipment>,
    coachAvailability: seq<CoachAvailability>)

  /** What the schema and `Equipment.save` guarantee about every stored row. */
  predicate CatalogValid(c: Catalog)
  {
    && CourtIdsAscending(c.courts)
    && CoachIdsAscending(c.coaches)
    && EquipmentIdsAscending(c.equipment)
    && (forall i :: 0 <= i < |c.courts| ==> ValidCourtType(c.courts[i].courtType))
    && (forall i, j :: 0 <= i < j < |c.courts| ==> c.courts[i].name != c.courts[j].name)
    && (forall i :: 0 <= i < |c.equipment| ==> c.equipment[i].availableQuantity <= c.equipment[i].totalQuantity)
    && UniqueAvailability(c.coachAvailability)
  }

  /** `Court.objects.get(id=id)`. */
  function FindCourt(courts: seq<Court>, id: int): (r: Option<Court>)
    ensures r.Some? ==> r.value in courts && r.value.id == id
    ensures r.None? <==> forall i :: 0 <= i < |courts| ==> courts[i].id != id
  {
    if |courts| == 0 then None
    else if courts[0].id == id then Some(courts[0])
    else FindCourt(courts[1..], id)
  }

  /** `Court.objects.get(id=id, is_active=True)`. */
  function FindActiveCourt(courts: seq<Court>, id: int): (r: Option<Court>)
    ensures r.Some? ==> r.value in courts && r.value.id == id && r.value.isActive
    ensures r.None? <==> forall i :: 0 <= i < |courts| ==> !(courts[i].id == id && courts[i].isActive)
  {
    if |courts| == 0 then None
    else if courts[0].id == id && courts[0].isActive then Some(courts[0])
    else FindActiveCourt(courts[1..], id)
  }

  /** `Coach.objects.get(id=id)`. */
  function FindCoach(coaches: seq<Coach>, id: int): (r: Option<Coach>)
    ensures r.Some? ==> r.value in coaches && r.value.id == id
    ensures r.None? <==> forall i :: 0 <= i < |coaches| ==> coaches[i].id != id
  {
    if |coaches| == 0 then None
    else if coaches[0].id == id then Some(coaches[0])
    else FindCoach(coaches[1..], id)
  }

  /** `Coach.objects.get(id=id, is_active=True)`. */
  function FindActiveCoach(coaches: seq<Coach>, id: int): (r: Option<Coach>)
    ensures r.Some? ==> r.value in coaches && r.value.id == id && r.value.isActive
    ensures r.None? <==> forall i :: 0 <= i < |coaches| ==> !(coaches[i].id == id && coaches[i].isActive)
  {
    if |coaches| == 0 then None
    else if coaches[0].id == id && coaches[0].isActive then Some(coaches[0])
    else FindActiveCoach(coaches[1..], id)
  }

  /** `Equipment.objects.get(id=id)`. */
  function FindEquipment(items: seq<Equipment>, id: int): (r: Option<Equipment>)
    ensures r.Some? ==> r.value in items && r.value.id == id
    ensures r.None? <==> forall i :: 0 <= i < |items| ==> items[i].id != id
  {
    if |items| == 0 then None
    else if items[0].id == id then Some(items[0])
    else FindEquipment(items[1..], id)
  }

  /** With ascending ids, the row found for an id is the one at any index carrying that id. */
  lemma FindEquipmentAt(items: seq<Equipment>, k: int)
    requires EquipmentIdsAscending(items) && 0 <= k < |items|
    ensures FindEquipment(items, items[k].id) == Some(items[k])
  {
    if k > 0 {
      assert items[0].id < items[k].id;
      assert items[1..][k - 1] == items[k];
      FindEquipmentAt(items[1..], k - 1);
    }
  }
}
