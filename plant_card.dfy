/** One plant card of the list: the two urgency tests, the CSS classes and
    alert they select, the link to the details page, and the water and
    delete buttons. */
module PlantCard {
  import opened Wrappers
  import opened JsText
  import opened Timestamps
  import opened App

  /** `new Date(plant.nextWatering) < new Date()`: the next watering is
      strictly in the past. */
  predicate NeedsWater(p: Plant, now: Timestamp) {
    Before(p.nextWatering, now)
  }

  /** `toDateString()` of both agree: the next watering falls on today's
      local date, whether earlier or later than now. */
  predicate WaterToday(p: Plant, now: Timestamp) {
    SameDate(p.nextWatering, now)
  }

  const TodayAlert := "Needs Watering Today!"
  const OverdueAlert := "Needs Watering!"

  /** What one card shows, as far as it depends on the plant's schedule. */
  datatype CardView = CardView(
    needsWaterClass: bool,     // `needs-water` on the card
    waterTodayClass: bool,     // `water-today` on the card
    dateHighlighted: bool,     // `water-needed` on the next-watering date
    alerts: seq<string>,       // the alert boxes, in document order
    link: string)              // the target of the card link

  /** The path `/plant/${plant.id}`; an id-less record renders as
      "undefined". */
  function DetailsPath(id: Option<string>): string {
    "/plant/" + id.GetOr("undefined")
  }

  function Card(p: Plant, now: Timestamp): CardView {
    var needsWater := NeedsWater(p, now);
    var waterToday := WaterToday(p, now);
    CardView(needsWater, waterToday, needsWater,
      (if waterToday then [TodayAlert] else []) + (if needsWater && !waterToday then [OverdueAlert] else []),
      DetailsPath(p.id))
  }

  /** At most one alert is shown; the today alert appears exactly when the
      plant is due today, the overdue alert exactly when it is overdue from an
      earlier day; the date is highlighted exactly when the plant is
      overdue. */
  lemma CardAlerts(p: Plant, now: Timestamp)
    ensures |Card(p, now).alerts| <= 1
    ensures TodayAlert in Card(p, now).alerts <==> WaterToday(p, now)
    ensures OverdueAlert in Card(p, now).alerts <==> NeedsWater(p, now) && !WaterToday(p, now)
    ensures OverdueAlert in Card(p, now).alerts <==> p.nextWatering.day < now.day
    ensures Card(p, now).dateHighlighted <==> Before(p.nextWatering, now)
  {
    assert TodayAlert != OverdueAlert by {
      assert |TodayAlert| != |OverdueAlert|;
    }
  }

  /** Both card classes apply to a plant due earlier today. */
  lemma BothClassesCanApply()
    ensures var p := Plant(Some("1"), "Fern", "Fern", "", "7", None, Timestamp(0, 0), "", None, None);
      var v := Card(p, Timestamp(0, 1));
      v.needsWaterClass && v.waterTodayClass && v.alerts == [TodayAlert]
  {
  }

  /** A plant watered now with a positive frequency shows no urgency. */
  lemma WateredCardIsCalm(plants: seq<Plant>, id: Option<string>, now: Timestamp, i: nat)
    requires i < |plants| && plants[i].id == id
    requires ParseInt(plants[i].waterFrequency).Some? && ParseInt(plants[i].waterFrequency).value > 0
    requires WateredPlants(plants, id, now).Some?
    ensures var v := Card(WateredPlants(plants, id, now).value[i], now);
      !v.needsWaterClass && !v.waterTodayClass && v.alerts == []
  {
    WaterSetsSchedule(plants, id, now);
  }

  // ---------------------------------------------------------------------------
  // Buttons

  /** A call of one of the list's callbacks. */
  datatype Action = WaterAction(id: Option<string>) | DeleteAction(id: Option<string>)

  /** `handleWater`: the card's own id, always. */
  function OnWater(p: Plant): Action {
    WaterAction(p.id)
  }

  /** `handleDelete`: the card's own id, only when the user confirms. */
  function OnDelete(p: Plant, confirmed: bool): Option<Action> {
    if confirmed then Some(DeleteAction(p.id)) else None
  }

  /** The plant list after the callback runs; None when watering throws. */
  function Perform(plants: seq<Plant>, a: Option<Action>, now: Timestamp): Option<seq<Plant>> {
    match a
    case None => Some(plants)
    case Some(WaterAction(id)) => WateredPlants(plants, id, now)
    case Some(DeleteAction(id)) => Some(DeletedPlants(plants, id))
  }

  /** Water on the card of record `i` waters that record. */
  lemma WaterButtonWatersOwnPlant(plants: seq<Plant>, i: nat, now: Timestamp)
    requires i < |plants|
    requires Perform(plants, Some(OnWater(plants[i])), now).Some?
    ensures Perform(plants, Some(OnWater(plants[i])), now).value[i].lastWatered == Some(now)
  {
    WaterSetsSchedule(plants, plants[i].id, now);
  }

  /** Delete on the card of record `i` removes every record with its id when
      confirmed, and changes nothing otherwise. */
  lemma DeleteButtonNeedsConfirmation(plants: seq<Plant>, i: nat, confirmed: bool, now: Timestamp)
    requires i < |plants|
    ensures var r := Perform(plants, OnDelete(plants[i], confirmed), now);
      r.Some?
      && (confirmed ==> forall j :: 0 <= j < |r.value| ==> r.value[j].id != plants[i].id)
      && (!confirmed ==> r.value == plants)
  {
    DeleteRemovesMatches(plants, plants[i].id);
  }
}
