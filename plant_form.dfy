/** The add/edit form: its field state, the error messages, the care
    information shown for the typed scientific name, and the image preview;
    the change handlers, validation and the submit guard. */
module PlantForm {
  import opened Wrappers
  import opened JsText
  import opened Timestamps
  import opened PlantDatabase
  import opened App

  /** The `formData` state. `lastWatered` is the date input's value: None
      when it is empty, otherwise the start of the chosen day. */
  datatype FormData = FormData(
    name: string,
    species: string,
    scientificName: string,
    waterFrequency: string,
    lastWatered: Option<Timestamp>,
    notes: string,
    image: Option<ImageFile>)

  /** The inputs of the form, by their `name` attributes; these are also
      the keys of the `errors` object. */
  datatype Field = Name | Species | ScientificName | WaterFrequency | LastWatered | Notes | Image

  /** The inputs whose value is text. */
  datatype TextField = NameText | SpeciesText | ScientificNameText | WaterFrequencyText | NotesText

  /** One `change` event: a text input's new value, or the date input's. */
  datatype Change = SetText(field: TextField, value: string) | SetDate(date: Option<Timestamp>)

  /** The `name` of the input a change comes from. */
  function Key(c: Change): Field {
    match c
    case SetText(NameText, _) => Name
    case SetText(SpeciesText, _) => Species
    case SetText(ScientificNameText, _) => ScientificName
    case SetText(WaterFrequencyText, _) => WaterFrequency
    case SetText(NotesText, _) => Notes
    case SetDate(_) => LastWatered
  }

  const NameRequired := "Plant name is required"
  const SpeciesRequired := "Species is required"
  const FrequencyNotPositive := "Water frequency must be a positive number"
  const DateRequired := "Last watered date is required"
  const NotAnImage := "Please select an image file"
  const ImageTooLarge := "Image must be less than 5MB"

  /** 5 * 1024 * 1024 bytes. */
  const MaxImageBytes: int := 5_242_880

  /** The fields `validateForm` checks. */
  const CheckedFields: set<Field> := {Name, Species, WaterFrequency, LastWatered}

  predicate NameMissing(d: FormData) {
    Trim(d.name) == ""
  }

  predicate SpeciesMissing(d: FormData) {
    Trim(d.species) == ""
  }

  /** The frequency check fails for an empty string or a parsed value of at
      most zero; NaN is not at most zero. */
  predicate FrequencyBad(d: FormData) {
    d.waterFrequency == "" || (ParseInt(d.waterFrequency).Some? && ParseInt(d.waterFrequency).value <= 0)
  }

  predicate DateMissing(d: FormData) {
    d.lastWatered.None?
  }

  /** The errors `validateForm` records, given the outcome of each check:
      the message of every failing check. */
  function Errors(nameMissing: bool, speciesMissing: bool, frequencyBad: bool, dateMissing: bool): map<Field, string> {
    var m := Record(map[], nameMissing, Name, NameRequired);
    var m := Record(m, speciesMissing, Species, SpeciesRequired);
    var m := Record(m, frequencyBad, WaterFrequency, FrequencyNotPositive);
    Record(m, dateMissing, LastWatered, DateRequired)
  }

  /** One check: its message under its field's key when it fails. */
  function Record(m: map<Field, string>, failed: bool, f: Field, message: string): map<Field, string> {
    if failed then m[f := message] else m
  }

  /** Each field has an error exactly when its check fails, with that
      check's message; nothing else is reported, and there are no errors
      exactly when all four checks pass. */
  lemma ErrorsPerField(nameMissing: bool, speciesMissing: bool, frequencyBad: bool, dateMissing: bool)
    ensures var e := Errors(nameMissing, speciesMissing, frequencyBad, dateMissing);
      (Name in e <==> nameMissing) && (Species in e <==> speciesMissing)
      && (WaterFrequency in e <==> frequencyBad) && (LastWatered in e <==> dateMissing)
      && e.Keys <= CheckedFields
      && (Name in e ==> e[Name] == NameRequired)
      && (Species in e ==> e[Species] == SpeciesRequired)
      && (WaterFrequency in e ==> e[WaterFrequency] == FrequencyNotPositive)
      && (LastWatered in e ==> e[LastWatered] == DateRequired)
      && (e == map[] <==> !nameMissing && !speciesMissing && !frequencyBad && !dateMissing)
  {
    var e := Errors(nameMissing, speciesMissing, frequencyBad, dateMissing);
    if e == map[] {
      assert Name !in e && Species !in e && WaterFrequency !in e && LastWatered !in e;
    }
  }

  function FormErrors(d: FormData): map<Field, string> {
    Errors(NameMissing(d), SpeciesMissing(d), FrequencyBad(d), DateMissing(d))
  }

  /** The form's errors, field by field, in terms of the form's values. */
  lemma FormErrorsPerField(d: FormData)
    ensures Name in FormErrors(d) <==> Trim(d.name) == ""
    ensures Species in FormErrors(d) <==> Trim(d.species) == ""
    ensures WaterFrequency in FormErrors(d) <==>
      d.waterFrequency == "" || (ParseInt(d.waterFrequency).Some? && ParseInt(d.waterFrequency).value <= 0)
    ensures LastWatered in FormErrors(d) <==> d.lastWatered.None?
    ensures FormErrors(d).Keys <= CheckedFields
    ensures FormErrors(d) == map[] <==>
      Trim(d.name) != "" && Trim(d.species) != "" && d.lastWatered.Some?
      && d.waterFrequency != "" && (ParseInt(d.waterFrequency).None? || ParseInt(d.waterFrequency).value > 0)
  {
    ErrorsPerField(NameMissing(d), SpeciesMissing(d), FrequencyBad(d), DateMissing(d));
  }

  /** A frequency that starts with a character that is neither white space,
      a sign nor a digit, such as ".5", parses to NaN and passes validation;
      adding such a plant then throws, so the list stays as it was. */
  lemma NaNFrequencyPassesValidation(d: FormData, plants: seq<Plant>, data: PlantData, id: string, now: Timestamp)
    requires StartsWithNonNumeral(d.waterFrequency)
    requires data.waterFrequency == d.waterFrequency
    ensures WaterFrequency !in FormErrors(d)
    ensures AddedPlants(plants, data, id, now) == None
  {
    ParseIntNaN(d.waterFrequency);
    ErrorsPerField(NameMissing(d), SpeciesMissing(d), FrequencyBad(d), DateMissing(d));
  }

  /** The frequency ".5" is such a value. */
  lemma PointFiveIsNaN()
    ensures StartsWithNonNumeral(".5") && ParseInt(".5") == None
  {
    ParseIntNaN(".5");
  }

  /** The submitted object: the form fields, the image file, and the image
      URL `imagePreview || (existingPlant && existingPlant.imageUrl) || null`. */
  function SubmittedData(d: FormData, imagePreview: Option<string>, existing: Option<Plant>): PlantData {
    PlantData(d.name, d.species, d.scientificName, d.waterFrequency, d.lastWatered, d.notes, d.image,
      imagePreview.OrElse(if existing.Some? then existing.value.imageUrl else None))
  }

  /** What a successful submit hands to the application. */
  datatype Submission = AddSubmission(data: PlantData) | UpdateSubmission(id: string, data: PlantData)

  /** A submission that passed validation with a numeric frequency is added
      with a next watering strictly after the chosen date. */
  lemma ValidAddSchedulesLater(d: FormData, preview: Option<string>, plants: seq<Plant>, id: string, now: Timestamp)
    requires FormErrors(d) == map[] && ParseInt(d.waterFrequency).Some?
    ensures var r := AddedPlants(plants, SubmittedData(d, preview, None), id, now);
      r.Some? && Before(d.lastWatered.value, r.value[|plants|].nextWatering)
  {
    FormErrorsPerField(d);
    NextWateringIsLater(d.waterFrequency, d.lastWatered.value);
  }

  /** The form's state. */
  class Form {
    var formData: FormData
    var errors: map<Field, string>
    var careInfo: Option<CareEntry>
    var imagePreview: Option<string>

    /** Every recorded error belongs to a checked field or to the image. */
    predicate Valid()
      reads this
    {
      forall k :: k in errors ==> k in CheckedFields || k == Image
    }

    /** A fresh form: frequency "7" and today's date. */
    constructor(now: Timestamp)
      ensures Valid()
      ensures formData == FormData("", "", "", "7", Some(StartOfDay(now)), "", None)
      ensures errors == map[] && careInfo == None && imagePreview == None
    {
      formData := FormData("", "", "", "7", Some(StartOfDay(now)), "", None);
      errors := map[];
      careInfo := None;
      imagePreview := None;
    }

    /** The edit prefill from the record being edited; the date keeps only its
      day. Reading the date part of a record without `lastWatered` throws,
      and then nothing changes. */
    method Prefill(existing: Plant) returns (ok: bool)
      modifies this
      requires Valid()
      ensures Valid()
      ensures ok <==> existing.lastWatered.Some?
      ensures !ok ==> formData == old(formData) && imagePreview == old(imagePreview) && careInfo == old(careInfo)
      ensures ok ==> formData == FormData(existing.name, existing.species, existing.scientificName,
                                          existing.waterFrequency, Some(StartOfDay(existing.lastWatered.value)),
                                          existing.notes, None)
      ensures ok ==> imagePreview == existing.imageUrl.OrElse(old(imagePreview))
      ensures ok ==> careInfo == if existing.scientificName != "" then GetPlantCareInfo(existing.scientificName)
                                 else old(careInfo)
      ensures errors == old(errors)
    {
      if existing.lastWatered.None? {
        return false;
      }
      formData := FormData(existing.name, existing.species, existing.scientificName,
                           existing.waterFrequency, Some(StartOfDay(existing.lastWatered.value)),
                           existing.notes, None);
      if existing.imageUrl.Some? {
        imagePreview := existing.imageUrl;
      }
      if existing.scientificName != "" {
        ShowCareInfo(existing.scientificName);
      }
      ok := true;
    }

    /** `handleChange`: set the changed field, clear its error if one is
      shown, and look up care information for a non-blank scientific name. */
    method HandleChange(c: Change)
      modifies this
      requires Valid()
      ensures Valid()
      ensures formData == Changed(old(formData), c)
      ensures errors == if Key(c) in old(errors) && old(errors)[Key(c)] != "" then old(errors)[Key(c) := ""]
                        else old(errors)
      ensures careInfo == if LooksUpCareInfo(c) then GetPlantCareInfo(c.value) else old(careInfo)
      ensures imagePreview == old(imagePreview)
    {
      SetField(c);
      if LooksUpCareInfo(c) {
        ShowCareInfo(c.value);
      }
    }

    /** The state updates of `handleChange`: the field and its error. */
    method SetField(c: Change)
      modifies this
      requires Valid()
      ensures Valid()
      ensures formData == Changed(old(formData), c)
      ensures errors == if Key(c) in old(errors) && old(errors)[Key(c)] != "" then old(errors)[Key(c) := ""]
                        else old(errors)
      ensures careInfo == old(careInfo) && imagePreview == old(imagePreview)
    {
      formData := Changed(formData, c);
      var key := Key(c);
      if key in errors && errors[key] != "" {
        errors := errors[key := ""];
      }
    }

    /** `setCareInfo(getPlantCareInfo(scientificName))`. */
    method ShowCareInfo(scientificName: string)
      modifies this
      requires Valid()
      ensures Valid()
      ensures careInfo == GetPlantCareInfo(scientificName)
      ensures formData == old(formData) && errors == old(errors) && imagePreview == old(imagePreview)
    {
      careInfo := GetPlantCareInfo(scientificName);
    }

    /** `handleImageChange`: no file changes nothing; a file whose type does
      not contain "image" is refused first, then one larger than 5 MiB; a
      refused file leaves `formData` alone. The preview is produced later by
      a file reader, which is not modelled. */
    method HandleImageChange(file: Option<ImageFile>)
      modifies this
      requires Valid()
      ensures Valid()
      ensures file.None? ==> formData == old(formData) && errors == old(errors)
      ensures file.Some? && !MatchesImagePattern(file.value.mimeType) ==>
        formData == old(formData) && errors == old(errors)[Image := NotAnImage]
      ensures file.Some? && MatchesImagePattern(file.value.mimeType) && file.value.size > MaxImageBytes ==>
        formData == old(formData) && errors == old(errors)[Image := ImageTooLarge]
      ensures file.Some? && MatchesImagePattern(file.value.mimeType) && file.value.size <= MaxImageBytes ==>
        formData == old(formData).(image := file) && errors == old(errors)[Image := ""]
      ensures careInfo == old(careInfo) && imagePreview == old(imagePreview)
    {
      if file.None? {
        return;
      }
      var f := file.value;
      MatchesImagePatternBySearch(f.mimeType);
      if FindImage(f.mimeType, 0).None? {
        errors := errors[Image := NotAnImage];
        return;
      }
      if f.size > MaxImageBytes {
        errors := errors[Image := ImageTooLarge];
        return;
      }
      formData := formData.(image := file);
      errors := errors[Image := ""];
    }

    /** `removeImage`. */
    method RemoveImage()
      modifies this
      requires Valid()
      ensures Valid()
      ensures formData == old(formData).(image := None) && imagePreview == None
      ensures errors == old(errors) && careInfo == old(careInfo)
    {
      formData := formData.(image := None);
      imagePreview := None;
    }

    /** `validateForm`: record a message for each failing check, replace the
      errors with them, and report whether there are none. */
    method ValidateForm() returns (valid: bool)
      modifies this
      ensures Valid()
      ensures errors == FormErrors(formData)
      ensures valid <==> errors == map[]
      ensures formData == old(formData) && careInfo == old(careInfo) && imagePreview == old(imagePreview)
    {
      var d := formData;
      var nameMissing := NameMissing(d);
      var speciesMissing := SpeciesMissing(d);
      var frequencyBad := FrequencyBad(d);
      var dateMissing := DateMissing(d);
      var newErrors: map<Field, string> := map[];
      newErrors := RecordError(newErrors, nameMissing, Name, NameRequired);
      newErrors := RecordError(newErrors, speciesMissing, Species, SpeciesRequired);
      newErrors := RecordError(newErrors, frequencyBad, WaterFrequency, FrequencyNotPositive);
      newErrors := RecordError(newErrors, dateMissing, LastWatered, DateRequired);
      assert newErrors == Errors(nameMissing, speciesMissing, frequencyBad, dateMissing) == FormErrors(d);
      ErrorsPerField(nameMissing, speciesMissing, frequencyBad, dateMissing);
      errors := newErrors;
      valid := |newErrors| == 0;
      assert valid <==> errors == map[] by {
        if errors != map[] {
          var k :| k in errors;
        }
      }
    }

    /** One check of `validateForm`: `newErrors[f] = message` when it fails. */
    static method RecordError(m: map<Field, string>, failed: bool, f: Field, message: string)
      returns (r: map<Field, string>)
      ensures r == Record(m, failed, f, message)
    {
      r := m;
      if failed {
        r := r[f := message];
      }
    }

    /** `handleSubmit`: validate, and when valid hand the data to the
      application, as an update of the route id when editing and as an add
      otherwise. */
    method HandleSubmit(routeId: Option<string>, existing: Option<Plant>) returns (s: Option<Submission>)
      modifies this
      ensures errors == FormErrors(old(formData))
      ensures s.Some? <==> FormErrors(old(formData)) == map[]
      ensures s.Some? ==> s.value == match routeId
        case Some(id) => UpdateSubmission(id, SubmittedData(old(formData), old(imagePreview), existing))
        case None => AddSubmission(SubmittedData(old(formData), old(imagePreview), existing))
      ensures Valid()
      ensures formData == old(formData) && careInfo == old(careInfo) && imagePreview == old(imagePreview)
    {
      var valid := ValidateForm();
      if !valid {
        return None;
      }
      var data := SubmittedData(formData, imagePreview, existing);
      match routeId
      case Some(id) => s := Some(UpdateSubmission(id, data));
      case None => s := Some(AddSubmission(data));
    }
  }

  /** A change of the scientific name to a non-blank value, which looks up
      care information. */
  predicate LooksUpCareInfo(c: Change) {
    c.SetText? && c.field == ScientificNameText && Trim(c.value) != ""
  }

  /** The form data after one change. */
  function Changed(d: FormData, c: Change): FormData {
    match c
    case SetText(NameText, v) => d.(name := v)
    case SetText(SpeciesText, v) => d.(species := v)
    case SetText(ScientificNameText, v) => d.(scientificName := v)
    case SetText(WaterFrequencyText, v) => d.(waterFrequency := v)
    case SetText(NotesText, v) => d.(notes := v)
    case SetDate(t) => d.(lastWatered := t)
  }

  /** The text of field `f`. */
  function TextOf(d: FormData, f: TextField): string {
    match f
    case NameText => d.name
    case SpeciesText => d.species
    case ScientificNameText => d.scientificName
    case WaterFrequencyText => d.waterFrequency
    case NotesText => d.notes
  }

  /** A change sets exactly its own field and leaves every other field,
      and the image, as it was. */
  lemma ChangeSetsOnlyItsField(d: FormData, c: Change)
    ensures forall f :: TextOf(Changed(d, c), f) == if c.SetText? && c.field == f then c.value else TextOf(d, f)
    ensures Changed(d, c).lastWatered == if c.SetDate? then c.date else d.lastWatered
    ensures Changed(d, c).image == d.image
  {
  }

  /** Submitting an edit replaces the record with one that has no id, so the
      edited plant can no longer be found at its old id. */
  lemma EditSubmissionLosesId(plants: seq<Plant>, id: string, d: FormData, preview: Option<string>,
                              existing: Option<Plant>)
    requires UpdatedPlants(plants, id, SubmittedData(d, preview, existing)).Some?
    ensures FindPlant(UpdatedPlants(plants, id, SubmittedData(d, preview, existing)).value, Some(id)) == None
  {
    UpdateLosesId(plants, id, SubmittedData(d, preview, existing));
  }
}
