/** The application state of the plant tracker: the list of plant records
    and the four operations that replace it (add, update, delete, water),
    together with the watering-schedule computation they share. */
module App {
  import opened Wrappers
  import opened JsText
  import opened Timestamps
  import opened Calendar
  import opened Seqs

  /** A picked image file: its name, its MIME type and its size in bytes. */
  datatype ImageFile = ImageFile(name: string, mimeType: string, size: int)

  /** The object the plant form submits. It has no `id` and no
      `nextWatering`; `lastWatered` is None when the date field is empty. */
  datatype PlantData = PlantData(
    name: string,
    species: string,
    scientificName: string,
    waterFrequency: string,
    lastWatered: Option<Timestamp>,
    notes: string,
    image: Option<ImageFile>,
    imageUrl: Option<string>)

  /** A stored plant record. `id` is None for a record that was replaced by
      an edit, since the submitted data carries no id. */
  datatype Plant = Plant(
    id: Option<string>,
    name: string,
    species: string,
    scientificName: string,
    waterFrequency: string,
    lastWatered: Option<Timestamp>,
    nextWatering: Timestamp,
    notes: string,
    image: Option<ImageFile>,
    imageUrl: Option<string>)

  /** `calculateNextWatering(frequency, lastWatered)`: `lastWatered` moved by
      `parseInt(frequency)` calendar days. None is the RangeError that
      `toISOString` throws on an Invalid Date, which arises when there is no
      date or when the frequency parses to NaN. */
  function CalculateNextWatering(frequency: string, lastWatered: Option<Timestamp>): (r: Option<Timestamp>)
    ensures r.Some? <==> lastWatered.Some? && ParseInt(frequency).Some?
  {
    match lastWatered
    case None => None
    case Some(t) =>
      match ParseInt(frequency)
      case None => None
      case Some(n) => Some(AddDays(t, n))
  }

  /** The next watering is exactly `parseInt(frequency)` whole days after the
      last one, at the same local time of day. */
  lemma NextWateringIsWholeDaysLater(frequency: string, t: Timestamp)
    requires ParseInt(frequency).Some?
    ensures var r := CalculateNextWatering(frequency, Some(t));
      r.Some? && r.value.msOfDay == t.msOfDay && r.value.Valid() == t.Valid()
      && Millis(r.value) == Millis(t) + ParseInt(frequency).value * MsPerDay
  {
    AddDaysMillis(t, ParseInt(frequency).value);
  }

  /** A frequency written as a decimal numeral `n` (followed by anything that
      is not a digit) lands on the calendar date `n` days later, rolling over
      month and year ends. */
  lemma NextWateringRollsOver(n: nat, rest: string, d: Date, msOfDay: nat)
    requires rest == [] || !IsDigit(rest[0])
    requires ValidDate(d)
    ensures CalculateNextWatering(Numeral(n) + rest, Some(At(d, msOfDay)))
            == Some(At(AddCivilDays(d, n), msOfDay))
  {
    ParseIntNumeral(n, rest);
    AddDaysRollsOver(d, msOfDay, n);
  }

  /** A positive frequency schedules strictly later, on a later date. */
  lemma NextWateringIsLater(frequency: string, t: Timestamp)
    requires ParseInt(frequency).Some? && ParseInt(frequency).value > 0
    ensures var r := CalculateNextWatering(frequency, Some(t));
      r.Some? && Before(t, r.value) && !SameDate(t, r.value)
  {
  }

  /** A record whose schedule agrees with its frequency: it has a last
      watering date and the next one is `parseInt(waterFrequency)` days on. */
  predicate ScheduleConsistent(p: Plant) {
    CalculateNextWatering(p.waterFrequency, p.lastWatered) == Some(p.nextWatering)
  }

  // ---------------------------------------------------------------------------
  // addPlant

  /** The record `addPlant` builds: the submitted fields, the new id, the
      defaulted last watering date, and no image file. */
  function NewRecord(data: PlantData, id: string, now: Timestamp, next: Timestamp): Plant {
    Plant(Some(id), data.name, data.species, data.scientificName, data.waterFrequency,
          data.lastWatered.OrElse(Some(now)), next, data.notes, None, data.imageUrl)
  }

  /** `[...plants, newPlant]`, or None when computing `nextWatering` throws.
      The schedule is computed from the submitted `lastWatered`, not from the
      defaulted one. */
  function AddedPlants(plants: seq<Plant>, data: PlantData, id: string, now: Timestamp): Option<seq<Plant>> {
    match CalculateNextWatering(data.waterFrequency, data.lastWatered)
    case None => None
    case Some(next) => Some(plants + [NewRecord(data, id, now, next)])
  }

  /** Adding appends exactly one record, leaves the others as they were, and
      the new record carries the submitted fields, the new id, no image file,
      and a next watering `parseInt(waterFrequency)` days after the submitted
      last watering. It succeeds exactly when a last watering date was
      submitted and the frequency parses. */
  lemma AddAppendsOne(plants: seq<Plant>, data: PlantData, id: string, now: Timestamp)
    ensures AddedPlants(plants, data, id, now).Some?
            <==> data.lastWatered.Some? && ParseInt(data.waterFrequency).Some?
    ensures AddedPlants(plants, data, id, now).Some? ==>
      var r := AddedPlants(plants, data, id, now).value;
      |r| == |plants| + 1 && r[..|plants|] == plants
      && var p := r[|plants|];
      p.id == Some(id) && p.image == None && p.lastWatered == data.lastWatered
      && p.name == data.name && p.species == data.species
      && p.scientificName == data.scientificName && p.waterFrequency == data.waterFrequency
      && p.notes == data.notes && p.imageUrl == data.imageUrl
      && Millis(p.nextWatering)
         == Millis(data.lastWatered.value) + ParseInt(data.waterFrequency).value * MsPerDay
  {
    if data.lastWatered.Some? && ParseInt(data.waterFrequency).Some? {
      NextWateringIsWholeDaysLater(data.waterFrequency, data.lastWatered.value);
      var r := AddedPlants(plants, data, id, now).value;
      assert r[..|plants|] == plants;
    }
  }

  /** Without a submitted last watering date the add throws and the list is
      unchanged: the default to the current time is never used. */
  lemma AddWithoutDateFails(plants: seq<Plant>, data: PlantData, id: string, now: Timestamp)
    requires data.lastWatered.None?
    ensures AddedPlants(plants, data, id, now) == None
  {
  }

  // ---------------------------------------------------------------------------
  // updatePlant

  /** The record `updatePlant` puts in place of a matching one: built from the
      submitted data alone, so it has no id. */
  function Replacement(data: PlantData, next: Timestamp): Plant {
    Plant(None, data.name, data.species, data.scientificName, data.waterFrequency,
          data.lastWatered, next, data.notes, None, data.imageUrl)
  }

  function UpdateOne(p: Plant, id: string, data: PlantData): Option<Plant> {
    if p.id == Some(id) then
      match CalculateNextWatering(data.waterFrequency, data.lastWatered)
      case None => None
      case Some(next) => Some(Replacement(data, next))
    else Some(p)
  }

  /** `plants.map(...)` of `updatePlant` with the route id; None when some
      record matches and computing its `nextWatering` throws. */
  function UpdatedPlants(plants: seq<Plant>, id: string, data: PlantData): Option<seq<Plant>> {
    MapAll(UpdateStep(id, data), plants)
  }

  /** The callback `updatePlant` maps with. */
  function UpdateStep(id: string, data: PlantData): Plant -> Option<Plant> {
    p => UpdateOne(p, id, data)
  }

  /** Updating keeps the length and every record with another id; each
      matching record becomes the replacement built from the submitted data
      alone. It fails exactly when some record matches and the submitted data
      has no date or an unparsable frequency. */
  lemma UpdateReplacesMatches(plants: seq<Plant>, id: string, data: PlantData)
    ensures UpdatedPlants(plants, id, data).None? <==>
      (exists i :: 0 <= i < |plants| && plants[i].id == Some(id))
      && (data.lastWatered.None? || ParseInt(data.waterFrequency).None?)
    ensures UpdatedPlants(plants, id, data).Some? ==>
      var r := UpdatedPlants(plants, id, data).value;
      |r| == |plants|
      && (forall i :: 0 <= i < |plants| && plants[i].id != Some(id) ==> r[i] == plants[i])
      && (forall i :: 0 <= i < |plants| && plants[i].id == Some(id) ==>
            r[i] == Replacement(data, CalculateNextWatering(data.waterFrequency, data.lastWatered).value))
  {
    var f := UpdateStep(id, data);
    if (exists i :: 0 <= i < |plants| && plants[i].id == Some(id))
       && (data.lastWatered.None? || ParseInt(data.waterFrequency).None?) {
      var i :| 0 <= i < |plants| && plants[i].id == Some(id);
      assert f(plants[i]).None?;
    }
  }

  /** After an update no record carries the updated id any more, so a later
      lookup by that id finds nothing. */
  lemma UpdateLosesId(plants: seq<Plant>, id: string, data: PlantData)
    requires UpdatedPlants(plants, id, data).Some?
    ensures forall i :: 0 <= i < |plants| ==> UpdatedPlants(plants, id, data).value[i].id != Some(id)
    ensures FindPlant(UpdatedPlants(plants, id, data).value, Some(id)) == None
  {
    UpdateReplacesMatches(plants, id, data);
  }

  /** An update whose id matches no record leaves the list as it was, even
      when the submitted data would make the schedule computation throw. */
  lemma UpdateOfUnknownIdIsNoop(plants: seq<Plant>, id: string, data: PlantData)
    requires forall i :: 0 <= i < |plants| ==> plants[i].id != Some(id)
    ensures UpdatedPlants(plants, id, data) == Some(plants)
  {
    UpdateReplacesMatches(plants, id, data);
    assert UpdatedPlants(plants, id, data).value == plants;
  }

  // ---------------------------------------------------------------------------
  // deletePlant

  /** `plants.filter(plant => plant.id !== id)`. */
  function DeletedPlants(plants: seq<Plant>, id: Option<string>): seq<Plant> {
    Filter(OtherId(id), plants)
  }

  /** The test `plant.id !== id` that `deletePlant` filters with. */
  function OtherId(id: Option<string>): Plant -> bool {
    (p: Plant) => p.id != id
  }

  /** Deleting removes every record with the id, keeps the others with their
      multiplicities, and keeps their order. */
  lemma DeleteRemovesMatches(plants: seq<Plant>, id: Option<string>)
    ensures forall i :: 0 <= i < |DeletedPlants(plants, id)| ==> DeletedPlants(plants, id)[i].id != id
    ensures forall p :: multiset(DeletedPlants(plants, id))[p] == if p.id != id then multiset(plants)[p] else 0
    ensures IsSubsequence(DeletedPlants(plants, id), plants)
  {
    FilterIsSubsequence(OtherId(id), plants);
    forall p ensures multiset(DeletedPlants(plants, id))[p] == if p.id != id then multiset(plants)[p] else 0 {
      FilterCounts(OtherId(id), plants, p);
    }
  }

  /** Deleting an id no record has leaves the list unchanged. */
  lemma DeleteOfUnknownIdIsNoop(plants: seq<Plant>, id: Option<string>)
    requires forall i :: 0 <= i < |plants| ==> plants[i].id != id
    ensures DeletedPlants(plants, id) == plants
  {
    FilterKeepsAll(OtherId(id), plants);
  }

  /** Deleting a freshly added record by its id, when no older record has
      that id, restores the list from before the add. */
  lemma DeleteUndoesAdd(plants: seq<Plant>, data: PlantData, id: string, now: Timestamp)
    requires forall i :: 0 <= i < |plants| ==> plants[i].id != Some(id)
    requires AddedPlants(plants, data, id, now).Some?
    ensures DeletedPlants(AddedPlants(plants, data, id, now).value, Some(id)) == plants
  {
    var next := CalculateNextWatering(data.waterFrequency, data.lastWatered).value;
    var keep := OtherId(Some(id));
    FilterConcat(keep, plants, [NewRecord(data, id, now, next)]);
    FilterKeepsAll(keep, plants);
    assert Filter(keep, [NewRecord(data, id, now, next)]) == [];
  }

  // ---------------------------------------------------------------------------
  // waterPlant

  function WaterOne(p: Plant, id: Option<string>, now: Timestamp): Option<Plant> {
    if p.id == id then
      match CalculateNextWatering(p.waterFrequency, Some(now))
      case None => None
      case Some(next) => Some(p.(lastWatered := Some(now), nextWatering := next))
    else Some(p)
  }

  /** `plants.map(...)` of `waterPlant`: every record with the id is watered
      now; None when one of them has a frequency that does not parse. */
  function WateredPlants(plants: seq<Plant>, id: Option<string>, now: Timestamp): Option<seq<Plant>> {
    MapAll(WaterStep(id, now), plants)
  }

  /** The callback `waterPlant` maps with. */
  function WaterStep(id: Option<string>, now: Timestamp): Plant -> Option<Plant> {
    p => WaterOne(p, id, now)
  }

  /** Watering keeps the length and every other record, and gives each
      matching record `lastWatered = now` and a next watering
      `parseInt(waterFrequency)` days after now, changing none of its other
      fields. It fails exactly when a matching record's frequency does not
      parse. */
  lemma WaterSetsSchedule(plants: seq<Plant>, id: Option<string>, now: Timestamp)
    ensures WateredPlants(plants, id, now).None? <==>
      exists i :: 0 <= i < |plants| && plants[i].id == id && ParseInt(plants[i].waterFrequency).None?
    ensures WateredPlants(plants, id, now).Some? ==>
      var r := WateredPlants(plants, id, now).value;
      |r| == |plants|
      && (forall i :: 0 <= i < |plants| && plants[i].id != id ==> r[i] == plants[i])
      && (forall i :: 0 <= i < |plants| && plants[i].id == id ==>
            r[i] == plants[i].(lastWatered := Some(now),
                               nextWatering := AddDays(now, ParseInt(plants[i].waterFrequency).value)))
  {
    var f := WaterStep(id, now);
    if exists i :: 0 <= i < |plants| && plants[i].id == id && ParseInt(plants[i].waterFrequency).None? {
      var i :| 0 <= i < |plants| && plants[i].id == id && ParseInt(plants[i].waterFrequency).None?;
      assert f(plants[i]).None?;
    }
  }

  /** Watering an id that no record has returns the list unchanged, with no
      error. */
  lemma WaterOfUnknownIdIsNoop(plants: seq<Plant>, id: Option<string>, now: Timestamp)
    requires forall i :: 0 <= i < |plants| ==> plants[i].id != id
    ensures WateredPlants(plants, id, now) == Some(plants)
  {
    WaterSetsSchedule(plants, id, now);
    assert WateredPlants(plants, id, now).value == plants;
  }

  /** Watering twice at the same moment is watering once. */
  lemma WaterIdempotent(plants: seq<Plant>, id: Option<string>, now: Timestamp)
    requires WateredPlants(plants, id, now).Some?
    ensures WateredPlants(WateredPlants(plants, id, now).value, id, now) == WateredPlants(plants, id, now)
  {
    var r := WateredPlants(plants, id, now).value;
    WaterSetsSchedule(plants, id, now);
    WaterSetsSchedule(r, id, now);
    assert WateredPlants(r, id, now).value == r;
  }

  /** An edited record has lost its id, so watering it from its card (whose
      id is undefined) waters every edited record at once. */
  lemma WaterEditedWatersAllEdited(plants: seq<Plant>, now: Timestamp, i: nat, j: nat)
    requires i < |plants| && j < |plants| && plants[i].id == None && plants[j].id == None
    requires WateredPlants(plants, plants[i].id, now).Some?
    ensures WateredPlants(plants, plants[i].id, now).value[j].lastWatered == Some(now)
  {
    WaterSetsSchedule(plants, plants[i].id, now);
  }

  // ---------------------------------------------------------------------------
  // The schedule invariant

  /** Every record's schedule agrees with its frequency and last watering. */
  predicate AllConsistent(plants: seq<Plant>) {
    forall i :: 0 <= i < |plants| ==> ScheduleConsistent(plants[i])
  }

  /** A successful add keeps every schedule consistent. */
  lemma AddKeepsSchedules(plants: seq<Plant>, data: PlantData, id: string, now: Timestamp)
    requires AllConsistent(plants)
    requires AddedPlants(plants, data, id, now).Some?
    ensures AllConsistent(AddedPlants(plants, data, id, now).value)
  {
    AddAppendsOne(plants, data, id, now);
    var r := AddedPlants(plants, data, id, now).value;
    forall i | 0 <= i < |r| ensures ScheduleConsistent(r[i]) {
      if i < |plants| {
        assert r[i] == r[..|plants|][i];
      }
    }
  }

  /** A successful update keeps every schedule consistent. */
  lemma UpdateKeepsSchedules(plants: seq<Plant>, id: string, data: PlantData)
    requires AllConsistent(plants)
    requires UpdatedPlants(plants, id, data).Some?
    ensures AllConsistent(UpdatedPlants(plants, id, data).value)
  {
    UpdateReplacesMatches(plants, id, data);
  }

  /** Deleting keeps every schedule consistent. */
  lemma DeleteKeepsSchedules(plants: seq<Plant>, id: Option<string>)
    requires AllConsistent(plants)
    ensures AllConsistent(DeletedPlants(plants, id))
  {
  }

  /** A successful watering keeps every schedule consistent. */
  lemma WaterKeepsSchedules(plants: seq<Plant>, id: Option<string>, now: Timestamp)
    requires AllConsistent(plants)
    requires WateredPlants(plants, id, now).Some?
    ensures AllConsistent(WateredPlants(plants, id, now).value)
  {
    WaterSetsSchedule(plants, id, now);
  }

  /** `plants.find(p => p.id === id)`. */
  function FindPlant(plants: seq<Plant>, id: Option<string>): Option<Plant> {
    Find((p: Plant) => p.id == id, plants)
  }

  /** The plant found is the first record with the id; None when no record
      has it. */
  lemma FindPlantIsFirst(plants: seq<Plant>, id: Option<string>)
    ensures FindPlant(plants, id).Some? ==>
      exists i :: 0 <= i < |plants| && plants[i] == FindPlant(plants, id).value
        && plants[i].id == id && forall j :: 0 <= j < i ==> plants[j].id != id
    ensures FindPlant(plants, id).None? <==> forall i :: 0 <= i < |plants| ==> plants[i].id != id
  {
    var ix := FirstIndex((p: Plant) => p.id == id, plants);
    if ix.Some? {
      assert plants[ix.value] == FindPlant(plants, id).value;
    }
  }

  // ---------------------------------------------------------------------------
  // The `plants` state

  /** The `plants` state of the application; each operation replaces the
      list, and one that throws leaves it as it was. */
  class PlantStore {
    var plants: seq<Plant>

    /** The store as loaded from storage. */
    constructor(saved: seq<Plant>)
      ensures plants == saved
    {
      plants := saved;
    }

    method AddPlant(data: PlantData, id: string, now: Timestamp) returns (ok: bool)
      modifies this
      ensures ok <==> data.lastWatered.Some? && ParseInt(data.waterFrequency).Some?
      ensures ok ==> plants == old(plants) + [NewRecord(data, id, now,
                        CalculateNextWatering(data.waterFrequency, data.lastWatered).value)]
      ensures !ok ==> plants == old(plants)
    {
      var r := AddedPlants(plants, data, id, now);
      if r.Some? {
        plants := r.value;
        ok := true;
      } else {
        ok := false;
      }
    }

    method UpdatePlant(id: string, data: PlantData) returns (ok: bool)
      modifies this
      ensures ok <==> UpdatedPlants(old(plants), id, data).Some?
      ensures ok ==> plants == UpdatedPlants(old(plants), id, data).value
      ensures !ok ==> plants == old(plants)
    {
      var r := UpdatedPlants(plants, id, data);
      if r.Some? {
        plants := r.value;
        ok := true;
      } else {
        ok := false;
      }
    }

    method DeletePlant(id: Option<string>)
      modifies this
      ensures plants == DeletedPlants(old(plants), id)
    {
      plants := DeletedPlants(plants, id);
    }

    method WaterPlant(id: Option<string>, now: Timestamp) returns (ok: bool)
      modifies this
      ensures ok <==> WateredPlants(old(plants), id, now).Some?
      ensures ok ==> plants == WateredPlants(old(plants), id, now).value
      ensures !ok ==> plants == old(plants)
    {
      var r := WateredPlants(plants, id, now);
      if r.Some? {
        plants := r.value;
        ok := true;
      } else {
        ok := false;
      }
    }
  }
}
