/** The details page of one plant, reached at `/plant/:id`: the plant with
    that id, its care information, the overdue marker, and the water and
    delete buttons. */
module PlantDetails {
  import opened Wrappers
  import opened Timestamps
  import opened PlantDatabase
  import opened App
  import opened PlantCard

  /** `careInfo`: null when the plant has no scientific name, otherwise the
      table lookup. */
  function CareInfoOf(p: Plant): Option<CareEntry> {
    if p.scientificName == "" then None else GetPlantCareInfo(p.scientificName)
  }

  const OverdueSuffix := " (Needs Watering!)"

  /** What the page renders; only the found page has buttons. */
  datatype DetailsView =
    | NotFound
    | Details(plant: Plant, careInfo: Option<CareEntry>, needsWater: bool, suffix: string)

  /** The page for route id `routeId`; the route parameter is always a
      string, so it is compared with `Some(routeId)`. */
  function View(plants: seq<Plant>, routeId: string, now: Timestamp): DetailsView {
    match FindPlant(plants, Some(routeId))
    case None => NotFound
    case Some(p) =>
      var needsWater := NeedsWater(p, now);
      Details(p, CareInfoOf(p), needsWater, if needsWater then OverdueSuffix else "")
  }

  /** The page shows the first stored plant with the route id, or the
      not-found page when there is none; the overdue suffix appears exactly
      when the plant's next watering is strictly before now. */
  lemma ViewShowsFirstMatch(plants: seq<Plant>, routeId: string, now: Timestamp)
    ensures View(plants, routeId, now).NotFound? <==>
      forall i :: 0 <= i < |plants| ==> plants[i].id != Some(routeId)
    ensures View(plants, routeId, now).Details? ==>
      var v := View(plants, routeId, now);
      (exists i :: 0 <= i < |plants| && plants[i] == v.plant
         && forall j :: 0 <= j < i ==> plants[j].id != Some(routeId))
      && v.plant.id == Some(routeId)
      && (v.suffix == OverdueSuffix <==> Before(v.plant.nextWatering, now))
      && (v.suffix == "" <==> !Before(v.plant.nextWatering, now))
  {
    FindPlantIsFirst(plants, Some(routeId));
  }

  /** No care information without a scientific name; with one, the table
      lookup: the entry whose scientific name matches it up to case and
      surrounding white space, and `null` exactly when no entry matches. */
  lemma CareInfoMatchesScientificName(p: Plant)
    ensures p.scientificName == "" ==> CareInfoOf(p) == None
    ensures p.scientificName != "" ==> CareInfoOf(p) == GetPlantCareInfo(p.scientificName)
    ensures p.scientificName != "" ==> (CareInfoOf(p).None? <==>
      forall k :: k in Table ==> Normalise(Table[k].scientificName) != Normalise(p.scientificName))
    ensures CareInfoOf(p).Some? ==>
      CareInfoOf(p).value in Table.Values
      && Normalise(CareInfoOf(p).value.scientificName) == Normalise(p.scientificName)
  {
    if p.scientificName != "" {
      LookupByScientificName(p.scientificName);
    }
  }

  /** A scientific name picked from the form's suggestions always brings
      care information. */
  lemma SuggestedNameHasCareInfo(p: Plant, i: nat)
    requires i < |GetCommonPlants()| && p.scientificName == GetCommonPlants()[i].scientificName
    ensures CareInfoOf(p).Some? && CareInfoOf(p).value.name == GetCommonPlants()[i].name
  {
    CommonPlantsRoundTrip(i);
  }

  /** The handlers of the found page: water with the plant's id; delete with
      the plant's id and then go to "/". */
  datatype Handlers = Handlers(water: Action, delete: Action, afterDelete: string)

  function HandlersOf(v: DetailsView): Option<Handlers> {
    match v
    case NotFound => None
    case Details(p, _, _, _) => Some(Handlers(WaterAction(p.id), DeleteAction(p.id), "/"))
  }

  /** Buttons exist only on a found page, and both carry the route id. */
  lemma HandlersUseRouteId(plants: seq<Plant>, routeId: string, now: Timestamp)
    ensures HandlersOf(View(plants, routeId, now)).Some? <==> View(plants, routeId, now).Details?
    ensures HandlersOf(View(plants, routeId, now)).Some? ==>
      var h := HandlersOf(View(plants, routeId, now)).value;
      h.water == WaterAction(Some(routeId)) && h.delete == DeleteAction(Some(routeId))
      && h.afterDelete == "/"
  {
    ViewShowsFirstMatch(plants, routeId, now);
  }

  /** Delete on the page removes the shown plant and every other record with
      its id. */
  lemma DeleteRemovesShownPlant(plants: seq<Plant>, routeId: string, now: Timestamp)
    requires View(plants, routeId, now).Details?
    ensures var r := Perform(plants, Some(HandlersOf(View(plants, routeId, now)).value.delete), now);
      r.Some? && forall i :: 0 <= i < |r.value| ==> r.value[i].id != Some(routeId)
  {
    HandlersUseRouteId(plants, routeId, now);
    DeleteRemovesMatches(plants, Some(routeId));
  }

  /** An edited record has no id, so its card links to "/plant/undefined",
      and that page is the not-found page unless some record really has the
      id "undefined". */
  lemma EditedPlantHasNoDetailsPage(plants: seq<Plant>, i: nat, now: Timestamp)
    requires i < |plants| && plants[i].id == None
    requires forall j :: 0 <= j < |plants| ==> plants[j].id != Some("undefined")
    ensures DetailsPath(plants[i].id) == "/plant/" + "undefined"
    ensures View(plants, "undefined", now) == NotFound
  {
    ViewShowsFirstMatch(plants, "undefined", now);
  }
}
