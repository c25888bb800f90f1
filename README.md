# Plant Care — a verified model

Plant Care is a small React application that keeps a list of house plants in
the browser. A user can do four things with a plant:

- add it, with a name, species, optional scientific name, watering frequency in days, last watering date, notes and an image;
- edit it;
- delete it;
- water it now.

Every record carries a next-watering date, computed as the last watering date
plus `parseInt(frequency)` calendar days.

The list page puts overdue plants first and then orders by name. Each card
shows a "due today" alert or an "overdue" alert. The bell in the header counts
the plants whose next watering falls on today's date. The details page shows a
plant together with the care information found for its scientific name in a
small built-in table. The form validates its fields before it submits.

This project models that core in Dafny:

- the plant list held by the application, and its add, update, delete and
  water operations, including the cases where the date arithmetic throws
  (`App`);
- the watering-schedule computation and the calendar it relies on
  (`Timestamps`, `Calendar`);
- the care-information table and its case- and white-space-insensitive lookup
  (`PlantDatabase`);
- the card, list, bell and details views as functions of the plant list and
  the current time (`PlantCard`, `PlantList`, `NotificationBell`,
  `PlantDetails`);
- the form's state as a class with its change, image, validation and submit
  handlers (`PlantForm`);
- the JavaScript built-ins the code depends on, as far as it uses them
  (`JsText`: `trim`, `toLowerCase`, `parseInt` and `match("image.*")`;
  `Seqs`: `filter`, `find` and `map`).

## How the model reads the program

- **Dates.** A date string stored in a record is an `Option<Timestamp>`. `None`
  is the empty or missing value, which is falsy. A `Timestamp` is a local day
  number and the milliseconds since local midnight.
- **Date arithmetic.** `setDate(getDate() + n)` adds `n` to the day and keeps
  the time of day. Module `Calendar` proves that this is the calendar date `n`
  days later, rolling over month and year ends.
- **Throwing.** `new Date(undefined)` is an Invalid Date, and `toISOString` then
  throws. So does a frequency that `parseInt` reads as NaN.
  `CalculateNextWatering` returns `None` in both cases. An operation that
  throws leaves the list as it was (`PlantStore` returns `ok == false`).
- **Adding without a date throws.** `addPlant` computes the schedule from the
  submitted `lastWatered`, not from the defaulted one (`src/app.jsx:33-36`). So
  an add without a date throws, and the default to the current time never
  takes effect.
- **Edits lose the id.** `updatePlant` builds the new record from the submitted
  data alone (`src/app.jsx:46-54`). That data has no `id`, so an edited record
  loses its id:
  - its card links to `/plant/undefined`, which is the not-found page;
  - watering or deleting it from the card acts on every id-less record.

  The model keeps this behaviour. `UpdateLosesId`, `EditedPlantHasNoDetailsPage`
  and `WaterEditedWatersAllEdited` state it.
- **Ids.** Ids are `Option<string>`. The route parameter of the details page is
  always a string, so the page looks for `Some(routeId)`.
- **Unknown ids and odd frequencies are not errors.**
  - Watering an id that no record has is a silent no-op, not an error.
  - `calculateNextWatering` accepts any value `parseInt` produces. Zero and
    negative frequencies are not rejected: they schedule on the same day or
    earlier.
- **White space.** `trim` and `parseInt` skip the white space of JavaScript:
  tab, vertical tab, form feed, the byte-order mark, every Unicode space
  separator (category Zs) and the four line terminators (`JsText.IsWhitespace`).

## Model

| member | source | states |
|---|---|---|
| App.CalculateNextWatering | src/app.jsx:82-86 | the next watering exists exactly when a last watering date is given and the frequency parses |
| App.NextWateringIsWholeDaysLater | src/app.jsx:82-86 | the next watering is `parseInt(frequency)` whole days after the last, at the same time of day |
| App.NextWateringRollsOver | src/app.jsx:83-85 | a numeral frequency `n` lands on the calendar date `n` days later, rolling over months and years |
| App.NextWateringIsLater | src/app.jsx:82-86 | a positive frequency schedules strictly later and on a different date |
| App.AddAppendsOne | src/app.jsx:29-42 | adding succeeds exactly when a date is given and the frequency parses; it appends one record with the new id, the submitted fields and no image file, keeps the others, and computes the schedule from the submitted date |
| App.AddWithoutDateFails | src/app.jsx:33-37 | without a submitted date the add throws, so the `new Date()` default is never used |
| App.UpdateReplacesMatches | src/app.jsx:43-58 | the length and every other record are kept; each matching record is replaced by the record built from the submitted data; the update fails exactly when a record matches and the schedule cannot be computed |
| App.UpdateLosesId | src/app.jsx:43-58 | after an update no record carries the updated id, so looking it up finds nothing |
| App.UpdateOfUnknownIdIsNoop | src/app.jsx:43-58 | an id matching no record leaves the list unchanged, even with unusable data |
| App.DeleteRemovesMatches | src/app.jsx:60-62 | no record with the id remains; the others keep their multiplicity and their order |
| App.DeleteOfUnknownIdIsNoop | src/app.jsx:60-62 | deleting an unknown id leaves the list unchanged |
| App.DeleteUndoesAdd | src/app.jsx:29-62 | deleting a freshly added record by its new id restores the list from before the add |
| App.WaterSetsSchedule | src/app.jsx:64-80 | watering sets `lastWatered` to now and the next watering to `parseInt(frequency)` days after now on each matching record, and changes nothing else; it fails exactly when a matching record's frequency does not parse |
| App.WaterOfUnknownIdIsNoop | src/app.jsx:64-80 | watering an unknown id leaves the list unchanged, with no error |
| App.WaterIdempotent | src/app.jsx:64-80 | watering twice at the same moment is watering once |
| App.WaterEditedWatersAllEdited | src/app.jsx:64-80 | watering with an undefined id waters every id-less record |
| App.AddKeepsSchedules | src/app.jsx:29-42 | a successful add keeps every record's next watering consistent with its frequency and last watering |
| App.UpdateKeepsSchedules | src/app.jsx:43-58 | a successful update keeps every schedule consistent |
| App.DeleteKeepsSchedules | src/app.jsx:60-62 | deleting keeps every schedule consistent |
| App.WaterKeepsSchedules | src/app.jsx:64-80 | a successful watering keeps every schedule consistent |
| App.FindPlantIsFirst | src/components/PlantDetails.jsx:18 | `find` returns the first record with the id, and nothing exactly when no record has it |
| App.PlantStore.constructor | src/app.jsx:16-20 | the store starts with the saved list |
| App.PlantStore.AddPlant | src/app.jsx:29-42 | on success the list gains the new record at the end; on a throw it is unchanged |
| App.PlantStore.UpdatePlant | src/app.jsx:43-58 | on success the list becomes the updated list; on a throw it is unchanged |
| App.PlantStore.DeletePlant | src/app.jsx:60-62 | the list becomes the filtered list |
| App.PlantStore.WaterPlant | src/app.jsx:64-80 | on success the list becomes the watered list; on a throw it is unchanged |
| Timestamps.BeforeIsEarlier | src/components/PlantCard.jsx:6 | comparing by day and then by time of day is comparing instants on the millisecond timeline |
| Timestamps.AddDaysMillis | src/app.jsx:84 | adding `n` calendar days moves an instant by `n` whole days |
| Timestamps.BeforeStrictTotal | src/components/PlantList.jsx:22-23 | the `<` comparison on dates is a strict total order |
| Calendar.NextDateIsNextDay | src/app.jsx:84 | the next calendar date has the next day number, across month ends, year ends and leap days |
| Calendar.AddCivilDaysIsAddDays | src/app.jsx:84 | stepping `n` dates forward adds `n` to the day number |
| Calendar.DayNumberInjective | src/components/PlantCard.jsx:7 | distinct valid dates have distinct day numbers |
| Calendar.AddDaysRollsOver | src/app.jsx:84 | `setDate(getDate() + n)` lands on the date `n` days later at the same time of day |
| Calendar.SameDateIsSameCivilDate | src/components/NotificationBell.jsx:11 | two instants have equal date strings exactly when their calendar dates are equal |
| JsText.TrimEmptyIff | src/components/PlantForm.jsx:112 | `s.trim()` is falsy exactly when `s` is all white space, counting every Unicode space separator |
| JsText.TrimStartSpec | src/components/PlantForm.jsx:112 | trimming the start drops exactly the leading white space |
| JsText.TrimEndSpec | src/components/PlantForm.jsx:112 | trimming the end drops exactly the trailing white space |
| JsText.TrimIdempotent | src/utils/plantDatabase.js:66 | trimming twice is trimming once |
| JsText.ToLowerIdempotent | src/utils/plantDatabase.js:66 | lower-casing twice is lower-casing once |
| JsText.NormaliseIdempotent | src/utils/plantDatabase.js:66 | lower-casing and trimming twice is doing it once |
| JsText.NormaliseAbsorbs | src/utils/plantDatabase.js:66 | lower-casing or trimming before normalising changes nothing |
| JsText.ParseInt | src/app.jsx:84 | `parseInt` is NaN exactly when no digit follows the leading white space and optional sign |
| JsText.ParseIntNumeral | src/components/PlantForm.jsx:120 | `parseInt` reads back the numeral of every natural number, whatever non-digit text follows it |
| JsText.ParseIntNegativeNumeral | src/components/PlantForm.jsx:120 | a leading minus sign negates the value read |
| JsText.ParseIntNaN | src/components/PlantForm.jsx:120 | `parseInt` is NaN for any text starting with a character that is not white space, a sign or a digit |
| JsText.FindImage | src/components/PlantForm.jsx:77 | the search finds an occurrence of "image" at or after its start, or proves there is none |
| JsText.MatchesImagePatternBySearch | src/components/PlantForm.jsx:77 | the unanchored pattern `image.*` matches exactly when the search finds "image" |
| Seqs.Filter | src/app.jsx:61 | every kept element is in the input and passes the test; every passing input element is kept |
| Seqs.FilterIsSubsequence | src/app.jsx:61 | `filter` keeps the input order |
| Seqs.FilterCounts | src/app.jsx:61 | `filter` keeps exactly the passing elements, each as often as in the input |
| Seqs.FilterConcat | src/app.jsx:61 | filtering a concatenation filters each part |
| Seqs.FilterKeepsAll | src/app.jsx:61 | when every element passes, `filter` returns its input |
| Seqs.FirstIndex | src/components/PlantDetails.jsx:18 | the index found is the first one that passes, and none is found exactly when no element passes |
| Seqs.MapAll | src/app.jsx:44-56 | the mapped list exists exactly when the callback returns for every element, and then holds each callback result at its position |
| PlantDatabase.GetCommonPlants | src/utils/plantDatabase.js:70-75 | one suggestion per table entry |
| PlantDatabase.KeysEnumerateTable | src/utils/plantDatabase.js:2-63 | the table has exactly the five listed keys, without repetition |
| PlantDatabase.KeysAreNormalisedScientificNames | src/utils/plantDatabase.js:2-63 | every key is the lower-cased, trimmed scientific name of its entry |
| PlantDatabase.SameKeySameEntry | src/utils/plantDatabase.js:65-68 | names that normalise alike find the same entry |
| PlantDatabase.LookupNormalises | src/utils/plantDatabase.js:65-68 | lower-casing or trimming the argument first does not change the lookup |
| PlantDatabase.LookupByScientificName | src/utils/plantDatabase.js:65-68 | the entry found has a scientific name that normalises like the argument, and `null` means no entry's does |
| PlantDatabase.BlankNameFindsNothing | src/utils/plantDatabase.js:65-68 | an empty or all-white-space name finds nothing |
| PlantDatabase.CommonPlantsRoundTrip | src/utils/plantDatabase.js:65-75 | every suggested scientific name is non-empty and is found again under the same common name |
| PlantDatabase.CommonPlantsListTable | src/utils/plantDatabase.js:70-75 | the suggestions list every table entry, with distinct scientific names |
| PlantCard.CardAlerts | src/components/PlantCard.jsx:6-54 | at most one alert; the today alert exactly when due today, the overdue alert exactly when due on an earlier day; the date is highlighted exactly when overdue |
| PlantCard.BothClassesCanApply | src/components/PlantCard.jsx:24 | a plant due earlier today gets both card classes and only the today alert |
| PlantCard.WateredCardIsCalm | src/components/PlantCard.jsx:6-7 | a plant just watered with a positive frequency shows no class and no alert |
| PlantCard.WaterButtonWatersOwnPlant | src/components/PlantCard.jsx:9-13 | Water on a card waters that card's record |
| PlantCard.DeleteButtonNeedsConfirmation | src/components/PlantCard.jsx:15-21 | Delete removes the card's id only when confirmed and otherwise changes nothing |
| PlantList.LocaleCompare | src/components/PlantList.jsx:28 | the comparison result is negative, zero or positive |
| PlantList.LocaleCompareAntisymmetric | src/components/PlantList.jsx:28 | swapping the names negates the comparison |
| PlantList.LocaleCompareTransitive | src/components/PlantList.jsx:28 | the name order is transitive |
| PlantList.InOrderTotal | src/components/PlantList.jsx:21-29 | any two plants are ordered one way or the other by the comparator |
| PlantList.InOrderTransitive | src/components/PlantList.jsx:21-29 | the comparator's order is transitive |
| PlantList.Insert | src/components/PlantList.jsx:21-29 | inserting into an ordered list keeps it ordered and adds exactly the element |
| PlantList.SortPlants | src/components/PlantList.jsx:21-29 | the sorted list is a permutation of the plants and is ordered by the comparator |
| PlantList.LocaleCompareZero | src/components/PlantList.jsx:28 | two names compare as equal exactly when they are the same string |
| PlantList.TiesAreEquivalent | src/components/PlantList.jsx:21-29 | plants the comparator ranks equal to a common plant are in order with each other either way |
| PlantList.SortPlantsStable | src/components/PlantList.jsx:21-29 | the sort is stable: plants the comparator ranks equal (same overdue state, same name) appear in their stored order |
| PlantList.OverdueFirst | src/components/PlantList.jsx:20-29 | every overdue plant comes before every plant that is not overdue |
| PlantList.NamesAscendWithinGroups | src/components/PlantList.jsx:20-29 | within the overdue group and within the rest, names ascend |
| PlantList.DueLaterTodayIsNotOverdue | src/components/PlantList.jsx:22-23 | a plant due later today is not overdue, though it is due today |
| PlantList.ViewShowsEveryPlant | src/components/PlantList.jsx:7-47 | the empty state appears exactly for no plants; otherwise the grid shows every plant as often as it is stored, in comparator order |
| NotificationBell.NeedingWaterIsDueToday | src/components/NotificationBell.jsx:8-12 | the list holds exactly the stored plants due today, in stored order, with their multiplicities |
| NotificationBell.OverdueFromEarlierDayNotListed | src/components/NotificationBell.jsx:8-12 | a plant due on an earlier day is never listed |
| NotificationBell.ViewReportsDuePlants | src/components/NotificationBell.jsx:14-44 | the highlight and badge appear exactly when a plant is due today, and the badge shows their count; the dropdown is present exactly when open and lists those plants in order, or says there are none |
| NotificationBell.Bell.constructor | src/components/NotificationBell.jsx:5 | the bell starts closed |
| NotificationBell.Bell.Click | src/components/NotificationBell.jsx:20 | a click toggles the dropdown |
| NotificationBell.Bell.ClickTwice | src/components/NotificationBell.jsx:20 | two clicks leave the bell as it was |
| PlantDetails.ViewShowsFirstMatch | src/components/PlantDetails.jsx:18-35 | not-found exactly when no record has the route id; otherwise the first such record, with the overdue suffix exactly when it is overdue |
| PlantDetails.CareInfoMatchesScientificName | src/components/PlantDetails.jsx:19-21 | no care information without a scientific name; otherwise the table lookup of that name, which is an entry whose scientific name matches it, and `null` exactly when no entry matches |
| PlantDetails.SuggestedNameHasCareInfo | src/components/PlantDetails.jsx:19-21 | a scientific name picked from the form's suggestions brings its care information |
| PlantDetails.HandlersUseRouteId | src/components/PlantDetails.jsx:37-44 | buttons exist exactly on a found page, and both act on the route id; delete then goes to "/" |
| PlantDetails.DeleteRemovesShownPlant | src/components/PlantDetails.jsx:41-44 | Delete on the page removes every record with the shown id |
| PlantDetails.EditedPlantHasNoDetailsPage | src/components/PlantDetails.jsx:18-35 | an id-less record's link is "/plant/undefined", which leads to the not-found page |
| PlantForm.ErrorsPerField | src/components/PlantForm.jsx:109-130 | a field has an error exactly when its check fails, with that check's message; only the four checked fields appear; there are no errors exactly when every check passes |
| PlantForm.FormErrorsPerField | src/components/PlantForm.jsx:109-130 | the same, in terms of the trimmed name and species, the parsed frequency and the date |
| PlantForm.NaNFrequencyPassesValidation | src/components/PlantForm.jsx:120 | a frequency that starts with neither white space, a sign nor a digit, such as ".5", passes validation, and adding it then throws |
| PlantForm.PointFiveIsNaN | src/components/PlantForm.jsx:120 | ".5" is such a frequency: `parseInt` reads it as NaN |
| PlantForm.ValidAddSchedulesLater | src/components/PlantForm.jsx:132-160 | a validated add with a numeric frequency schedules strictly after the chosen date |
| PlantForm.ChangeSetsOnlyItsField | src/components/PlantForm.jsx:51-56 | a change sets its own field and leaves every other field as it was |
| PlantForm.EditSubmissionLosesId | src/components/PlantForm.jsx:151-152 | after an edit is submitted, the edited plant can no longer be found at its id |
| PlantForm.Form.constructor | src/components/PlantForm.jsx:13-26 | a fresh form has empty fields, frequency "7", today's date, no errors, no care information and no preview |
| PlantForm.Form.Prefill | src/components/PlantForm.jsx:28-49 | editing prefills the record's fields with the day of its last watering; it sets the preview when the record has an image URL and the care information when it has a scientific name |
| PlantForm.Form.HandleChange | src/components/PlantForm.jsx:51-71 | sets the changed field, blanks that field's error if one is shown, and looks up care information for a non-blank scientific name |
| PlantForm.Form.SetField | src/components/PlantForm.jsx:51-64 | sets the changed field and blanks its error if one is shown, leaving the rest of the state |
| PlantForm.Form.ShowCareInfo | src/components/PlantForm.jsx:67-70 | the care information becomes the lookup of the name |
| PlantForm.Form.HandleImageChange | src/components/PlantForm.jsx:73-102 | no file changes nothing; a non-image type, then a size above 5 MiB, is refused with its message; otherwise the file is taken and the image error blanked |
| PlantForm.Form.RemoveImage | src/components/PlantForm.jsx:104-107 | clears the image file and the preview |
| PlantForm.Form.ValidateForm | src/components/PlantForm.jsx:109-130 | the errors become exactly the failing checks' messages, and the result is true exactly when there are none |
| PlantForm.Form.RecordError | src/components/PlantForm.jsx:112-126 | one check records its message under its field when it fails and leaves the errors alone otherwise |
| PlantForm.Form.HandleSubmit | src/components/PlantForm.jsx:132-160 | the errors become the failing checks' messages; submits only a valid form: an update of the route id when editing, an add otherwise, with the image URL taken from the preview or the existing record; the fields, the preview and the care information are left as they were |

## Left out

- Persistence: loading from and saving to `localStorage`, and JSON (de)serialisation. The store takes its initial list as a parameter.
- Routing, navigation and links other than the details path: the `Router`, `navigate`, the cancel button and the edit-not-found page of the form.
- The `Loading`, `Header` and `Guide` components. They render only.
- The care-tips button of the details page: a timer and a random shuffle.
- `isSubmitting` and the 500 ms submit timer. The submission is modelled as happening at once.
- The `FileReader` that turns a picked image into a data URL preview.
- Clocks: the current time is a parameter. The list sort calls `new Date()` on every comparison, and the model uses one time for the whole sort. `waterPlant` calls `new Date()` once for each matching record; the model waters every match with the same time, which differs only when several records share the id (for instance several edited, id-less records).
- Date strings: the ISO and date-only formats, and the UTC reading of date-only strings. They are abstracted to `Timestamp`. Daylight-saving jumps are not modelled, so a day is always 24 hours.
- `window.confirm`: the user's answer is a boolean parameter.
- Ids from `Date.now()`: the new id is a parameter.
- The browser's own constraint validation of `type="number" min="1"` on the frequency input.
- Object keys inherited from the prototype, such as "constructor", are not part of the table lookup.
- The JavaScript value `undefined` as a stored `scientificName` or `notes`: the model stores strings.
- JsText.ParseInt: reads decimal digits only. It leaves out the hexadecimal `0x` prefix that `parseInt` without a radix also accepts, and the loss of precision for numbers beyond 2^53.
- PlantList.LocaleCompare: compares Unicode code points. Locale-aware collation is not modelled; the sort proofs use only that the order is total and transitive.
- JsText.ToLower: maps the letters A to Z only. The full Unicode case mapping is not modelled.
- App.CalculateNextWatering: does not model the Invalid Date produced by moving beyond the range of `Date` (about 273,790 years).
