/** The embedded care-information table, keyed by lower-case scientific name,
    with its case- and white-space-insensitive lookup and the list of common
    plants offered as suggestions in the plant form. */
module PlantDatabase {
  import opened Wrappers
  import opened JsText

  datatype Care = Care(
    temperature: string,
    sunlight: string,
    humidity: string,
    watering: string,
    soil: string,
    fertilizer: string)

  datatype CareEntry = CareEntry(name: string, scientificName: string, care: Care)

  /** An element of `getCommonPlants()`. */
  datatype CommonPlant = CommonPlant(name: string, scientificName: string)

  /** The table, as the object literal `plantDatabase`. */
  const Table: map<string, CareEntry> := map[
    "monstera deliciosa" := CareEntry("Monstera Deliciosa", "Monstera deliciosa", MonsteraCare),
    "sansevieria trifasciata" := CareEntry("Snake Plant", "Sansevieria trifasciata", SansevieriaCare),
    "epipremnum aureum" := CareEntry("Pothos", "Epipremnum aureum", EpipremnumCare),
    "ficus lyrata" := CareEntry("Fiddle Leaf Fig", "Ficus lyrata", FicusCare),
    "chlorophytum comosum" := CareEntry("Spider Plant", "Chlorophytum comosum", ChlorophytumCare)
  ]

  // The care advice of the five entries.

  const MonsteraCare: Care :=
    Care("18-27\U{00B0}C (65-80\U{00B0}F)", "Bright, indirect light. Avoid direct sun.",
      "Moderate to high humidity (60-80%)", "Water when top 2-3 inches of soil are dry",
      "Well-draining potting mix", "Balanced fertilizer monthly during growing season")

  const SansevieriaCare: Care :=
    Care("15-24\U{00B0}C (60-75\U{00B0}F)", "Low to bright indirect light. Tolerates low light.",
      "Average household humidity (30-50%)", "Allow soil to dry completely between waterings",
      "Well-draining cactus/succulent mix", "Light feeding during growing season")

  const EpipremnumCare: Care :=
    Care("18-24\U{00B0}C (65-75\U{00B0}F)", "Low to bright indirect light",
      "Average household humidity", "Water when top inch of soil is dry",
      "Well-draining potting mix", "Balanced fertilizer every 2-3 months")

  const FicusCare: Care :=
    Care("18-27\U{00B0}C (65-80\U{00B0}F)", "Bright, indirect light",
      "High humidity (50-80%)", "Keep soil consistently moist but not soggy",
      "Well-draining, rich potting mix", "Monthly during growing season")

  const ChlorophytumCare: Care :=
    Care("18-24\U{00B0}C (65-75\U{00B0}F)", "Bright, indirect light",
      "Average to high humidity", "Keep soil slightly moist",
      "Well-draining potting mix", "Monthly during growing season")

  /** The keys in the order they are written, which is the order
      `Object.values` enumerates the entries in. */
  const Keys: seq<string> := [
    "monstera deliciosa", "sansevieria trifasciata", "epipremnum aureum",
    "ficus lyrata", "chlorophytum comosum"
  ]

  /** Lower-cased and trimmed, as `getPlantCareInfo` normalises its argument. */
  function Normalise(s: string): string {
    Trim(ToLower(s))
  }

  /** `getPlantCareInfo(scientificName)`; None is the `null` it returns when
      the normalised name is not a key. */
  function GetPlantCareInfo(scientificName: string): Option<CareEntry> {
    var key := Normalise(scientificName);
    if key in Table then Some(Table[key]) else None
  }

  /** `getCommonPlants()`: the name and scientific name of every entry, in
      table order. */
  function GetCommonPlants(): (r: seq<CommonPlant>)
    ensures |r| == |Keys|
  {
    seq(|Keys|, i requires 0 <= i < |Keys| =>
      var e := Table[Keys[i]]; CommonPlant(e.name, e.scientificName))
  }

  /** `Keys` lists every key of the table exactly once. */
  lemma KeysEnumerateTable()
    ensures forall k :: k in Table <==> k in Keys
    ensures forall i, j :: 0 <= i < j < |Keys| ==> Keys[i] != Keys[j]
  {
  }

  // The lower-case forms of the five scientific names.

  lemma MonsteraKey()
    ensures ToLower("Monstera deliciosa") == "monstera deliciosa"
  {
    LowerCapitalisedWord("Monstera deliciosa", "monstera deliciosa");
  }

  lemma SansevieriaKey()
    ensures ToLower("Sansevieria trifasciata") == "sansevieria trifasciata"
  {
    LowerCapitalisedWord("Sansevieria trifasciata", "sansevieria trifasciata");
  }

  lemma EpipremnumKey()
    ensures ToLower("Epipremnum aureum") == "epipremnum aureum"
  {
    LowerCapitalisedWord("Epipremnum aureum", "epipremnum aureum");
  }

  lemma FicusKey()
    ensures ToLower("Ficus lyrata") == "ficus lyrata"
  {
    LowerCapitalisedWord("Ficus lyrata", "ficus lyrata");
  }

  lemma ChlorophytumKey()
    ensures ToLower("Chlorophytum comosum") == "chlorophytum comosum"
  {
    LowerCapitalisedWord("Chlorophytum comosum", "chlorophytum comosum");
  }

  /** A name that starts and ends with a letter is its own trim. */
  lemma TrimLetters(s: string)
    requires |s| > 0 && !IsWhitespace(s[0]) && !IsWhitespace(s[|s| - 1])
    ensures Trim(s) == s
  {
  }

  lemma KeyOfEntry(k: string)
    requires k in Table
    ensures k == ToLower(Table[k].scientificName)
    ensures Normalise(Table[k].scientificName) == k
  {
    if k == "monstera deliciosa" {
      assert Table[k].scientificName == "Monstera deliciosa";
      MonsteraKey();
      TrimLetters(k);
    } else if k == "sansevieria trifasciata" {
      assert Table[k].scientificName == "Sansevieria trifasciata";
      SansevieriaKey();
      TrimLetters(k);
    } else if k == "epipremnum aureum" {
      assert Table[k].scientificName == "Epipremnum aureum";
      EpipremnumKey();
      TrimLetters(k);
    } else if k == "ficus lyrata" {
      assert Table[k].scientificName == "Ficus lyrata";
      FicusKey();
      TrimLetters(k);
    } else {
      assert Table[k].scientificName == "Chlorophytum comosum";
      ChlorophytumKey();
      TrimLetters(k);
    }
  }

  /** Every key is the lower-case form of its entry's scientific name, and
      that name has no surrounding white space. */
  lemma KeysAreNormalisedScientificNames()
    ensures forall k :: k in Table ==> k == ToLower(Table[k].scientificName)
    ensures forall k :: k in Table ==> Normalise(Table[k].scientificName) == k
  {
    forall k | k in Table
      ensures k == ToLower(Table[k].scientificName)
      ensures Normalise(Table[k].scientificName) == k
    {
      KeyOfEntry(k);
    }
  }

  /** Names that normalise alike find the same entry. */
  lemma SameKeySameEntry(a: string, b: string)
    requires Normalise(a) == Normalise(b)
    ensures GetPlantCareInfo(a) == GetPlantCareInfo(b)
  {
  }

  /** The lookup answers for the normalised name: lower-casing or trimming
      the argument first changes nothing. */
  lemma LookupNormalises(s: string)
    ensures GetPlantCareInfo(s) == GetPlantCareInfo(Normalise(s))
    ensures GetPlantCareInfo(s) == GetPlantCareInfo(ToLower(s))
    ensures GetPlantCareInfo(s) == GetPlantCareInfo(Trim(s))
  {
    NormaliseIdempotent(s);
    NormaliseAbsorbs(s);
    SameKeySameEntry(s, Normalise(s));
    SameKeySameEntry(s, ToLower(s));
    SameKeySameEntry(s, Trim(s));
  }

  /** The entry found is the one whose scientific name normalises like the
      argument; `null` means no entry's scientific name does. */
  lemma LookupByScientificName(s: string)
    ensures GetPlantCareInfo(s).Some? ==>
      GetPlantCareInfo(s).value in Table.Values
      && Normalise(GetPlantCareInfo(s).value.scientificName) == Normalise(s)
    ensures GetPlantCareInfo(s).None? <==>
      forall k :: k in Table ==> Normalise(Table[k].scientificName) != Normalise(s)
  {
    KeysAreNormalisedScientificNames();
  }

  /** The empty name, or one of white space only, finds nothing. */
  lemma BlankNameFindsNothing(s: string)
    requires forall i :: 0 <= i < |s| ==> IsWhitespace(s[i])
    ensures GetPlantCareInfo(s) == None
  {
    TrimEmptyIff(s);
    TrimLower(s);
    assert Normalise(s) == ToLower([]) == [];
    KeysEnumerateTable();
  }

  /** Every suggestion offered by the form is found again by the lookup,
      under the same common name. */
  lemma CommonPlantsRoundTrip(i: nat)
    requires i < |GetCommonPlants()|
    ensures GetCommonPlants()[i].scientificName != ""
    ensures GetPlantCareInfo(GetCommonPlants()[i].scientificName).Some?
    ensures GetPlantCareInfo(GetCommonPlants()[i].scientificName).value.name
            == GetCommonPlants()[i].name
  {
    KeysEnumerateTable();
    KeyOfEntry(Keys[i]);
    if GetCommonPlants()[i].scientificName == "" {
      BlankNameFindsNothing("");
    }
  }

  /** The suggestions list every entry of the table exactly once. */
  lemma CommonPlantsListTable()
    ensures forall k :: k in Table ==>
      exists i :: 0 <= i < |GetCommonPlants()|
        && GetCommonPlants()[i] == CommonPlant(Table[k].name, Table[k].scientificName)
    ensures forall i, j :: 0 <= i < j < |GetCommonPlants()| ==>
      GetCommonPlants()[i].scientificName != GetCommonPlants()[j].scientificName
  {
    KeysEnumerateTable();
    var r := GetCommonPlants();
    forall k | k in Table
      ensures exists i :: 0 <= i < |r| && r[i] == CommonPlant(Table[k].name, Table[k].scientificName)
    {
      var i :| 0 <= i < |Keys| && Keys[i] == k;
      assert r[i] == CommonPlant(Table[k].name, Table[k].scientificName);
    }
    forall i, j | 0 <= i < j < |r|
      ensures r[i].scientificName != r[j].scientificName
    {
      KeyOfEntry(Keys[i]);
      KeyOfEntry(Keys[j]);
    }
  }
}
