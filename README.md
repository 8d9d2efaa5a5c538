# ReptiDiary core in Dafny

ReptiDiary is a single-page diary for reptile keepers. The user:

- keeps a list of reptiles (name, species, optional birth date, gender);
- selects one of them;
- records dated diary entries for it: checkups, weighings, feedings, sheddings, environment readings, medication and other notes;
- reads the entries newest first;
- reads a statistics panel derived from them.

This project models the application's state and handlers, the two forms, the entry list and the statistics panel. It then proves what each of them promises.

Modules, one per source file (plus two of shared helpers):

- `Types` (`src/lib/types.ts`) holds the `Reptile` and `Entry` records.
  - Optional text fields are `Option<string>`.
  - Dates are whole milliseconds since the epoch.
  - The entry's `type` field is called `kind`, because `type` is a Dafny keyword.
  - `Truthy` is JavaScript truthiness for an optional string: present and non-empty.
- `Seqs` holds the array operations the handlers use, with their contracts:
  - `filter`, as `Filter`: which elements it keeps, their counts and their order under concatenation;
  - `find`, as `Find`: the first match;
  - `join`, as `Join`;
  - `Unique`: uniqueness of ids, kept by filtering and by appending a fresh id.
- `DateSort` holds the date comparator sort, which appears six times in the source (five times in the statistics panel, once in the entry list).
  - It is modelled as a stable sort (`SortByDate`), as `Array.prototype.sort` is.
  - It returns a permutation of its input, ordered by date in either direction.
  - Newest first, its head is the newest entry that is stored first (`LatestIndex`).
- `Stats` (`src/components/Stats.tsx`) holds the summary memo `ComputeStats`:
  - the entry count;
  - the first and last entry dates;
  - the current weight;
  - the weight change against the previous weighing;
  - the last feeding and the last shedding;
  - the approximate age.
- `AgeText` (`src/components/Stats.tsx`) holds `formatAge` and the Russian `pluralize`.
- `EntryList` (`src/components/EntryList.tsx`) holds:
  - the newest-first order;
  - the kind labels;
  - the empty state;
  - the fields each card shows.
- `AddEntryForm` and `AddReptileForm` are the two forms.
  - Each has a pure schema check and a pure record builder.
  - Each has a class for the state the component keeps: the entry form's three visibility flags and values, and the reptile form's `isOpen` and values.
- `App` (`src/App.tsx`) is a `Diary` class whose fields are the reptile and entry collections and the selected id. Its methods are the handlers:
  - `Load`, the mount effect;
  - `AddReptile` and `AddEntry`;
  - `DeleteReptile`, which cascades to the reptile's entries and reselects the first reptile;
  - `DeleteEntry`;
  - `Select`;
  - `SubmitEntryForm`, the entry form wired to `addEntry`.

  Its functions are the derived values `FilteredEntries` and `SelectedReptile`. The ghost predicates are `NoOrphans` (every entry belongs to a stored reptile), `SelectionValid` (the selection names a stored reptile) and `IdsUnique`. `AddReptile`, `DeleteReptile` and `DeleteEntry` keep all three. `SubmitEntryForm` keeps `NoOrphans`. `Select` establishes `SelectionValid`, because the selector only offers stored ids. `Load` establishes `SelectionValid` only when nothing was selected before it ran. It promises neither `NoOrphans` nor `IdsUnique` for the saved data, which is adopted unchecked.

Behaviour is kept as the code has it, including where it is surprising:

- The age's days are `ageInDays % 30`, not the days left after the whole years and months. Taking what is left after whole years and months would give 5 days for 400 days; the code takes 400 % 30 = 10 (`AgeOf400Days`). `AgeDaysQuirkHidden` shows that the phrase never shows the difference, because days are hidden once there is a whole year.
- The entry form computes its visibility flags once, at mount, from the empty kind. Only the kind selector changes them afterwards, so a submission resets the kind to "" but leaves the flags as they were.
- The entry form is not remounted when another reptile is selected. Its values and flags carry over, and its submission uses the `reptileId` prop at submit time, so what was typed while one reptile was selected is saved for the reptile selected when the form is submitted (`EntryForm.Submit` takes the id as a parameter).
- `addEntry` accepts an entry for any reptile id. Only the wiring (the form is rendered for the selected, stored reptile) keeps entries attached to a stored reptile: see `SubmitEntryForm`.
- The weight change needs a weighing whose id differs from the latest weighing's. A change always needs at least two weighings; with unique ids, two are also enough (`StatsWeightChangeNeedsTwo`).

## Model

| member | source | states |
|---|---|---|
| Seqs.Filter | src/App.tsx:84 | `filter` keeps exactly the elements that satisfy the predicate, each as often as it was stored, and never lengthens the array |
| Seqs.FilterConcat | src/App.tsx:63 | filtering a concatenation is the concatenation of the filtered parts, so the stored order is kept |
| Seqs.FilterIdentity | src/App.tsx:80 | filtering leaves an array unchanged exactly when every element passes |
| Seqs.FilterUnique | src/App.tsx:67 | filtering an array with unique ids keeps ids unique |
| Seqs.AppendUnique | src/App.tsx:51 | appending an element whose id is new keeps ids unique |
| Seqs.Find | src/App.tsx:87 | `find` is absent exactly when nothing matches; otherwise it is the first matching element |
| Seqs.Join | src/components/Stats.tsx:88 | joining nothing gives ""; one part is itself; two parts are the first, the separator and the second |
| Seqs.JoinEmpty | src/components/Stats.tsx:88 | a join of non-empty parts is empty exactly when there are no parts |
| DateSort.Insert | src/components/Stats.tsx:18 | one insertion step of the sort adds exactly the inserted entry to the multiset |
| DateSort.InsertSorted | src/components/Stats.tsx:18 | inserting into a sorted array keeps it sorted |
| DateSort.SortByDate | src/components/Stats.tsx:18 | the date sort returns a permutation of its input, ordered by date in the requested direction |
| DateSort.LatestIndex | src/components/EntryList.tsx:29 | the position of the newest entry: no entry is newer, and every entry stored before it is strictly older |
| DateSort.SortDescendingHead | src/components/Stats.tsx:21-23 | newest first, the sort's head is the newest entry that is stored first |
| DateSort.SortAscendingEnds | src/components/Stats.tsx:62-63 | oldest first, the first and last elements are stored entries with the least and greatest dates |
| Stats.AgeFromDays | src/components/Stats.tsx:53-57 | years are whole 365-day years; months are whole 30-day months of the remainder (at most 12); days are the day count modulo 30 |
| Stats.LatestWhereSpec | src/components/Stats.tsx:21-23 | "filter, sort newest first, take [0]" is absent exactly when nothing qualifies; otherwise it is a stored, qualifying entry that no qualifying entry post-dates |
| Stats.LatestWhereFirstStored | src/components/Stats.tsx:39-41 | among equally late qualifying entries, the one stored first is taken |
| Stats.ComputeStats | src/components/Stats.tsx:16-70 | the summary memo; its fields are characterised by StatsEmpty, StatsEntryDates, StatsLastWeight, StatsWeightChange, StatsLastFeeding, StatsLastShedding and StatsAge |
| Stats.LatestWhere | src/components/Stats.tsx:21-23 | "filter, sort newest first, take [0]"; characterised by LatestWhereSpec and LatestWhereFirstStored |
| Stats.PreviousWeighing | src/components/Stats.tsx:26-28 | the latest weighing with an id other than the latest weighing's; characterised by PreviousWeighingSpec |
| Stats.WeightChange | src/components/Stats.tsx:30-36 | the weight difference when both weighings exist; characterised by WeightChangeSpec and WeightChangeNeedsTwo |
| Stats.StatsEmpty | src/components/Stats.tsx:60-69 | the count is the number of entries; with no entries every date, weight and change is absent |
| Stats.StatsEntryDates | src/components/Stats.tsx:62-63 | first and last entry dates are absent exactly when there are no entries; otherwise they are dates of stored entries, bounding every entry's date |
| Stats.StatsLastWeight | src/components/Stats.tsx:20-23 | the current weight is absent exactly when no entry carries a weight; otherwise it is the non-empty weight of a weighing that no weighing post-dates |
| Stats.PreviousWeighingSpec | src/components/Stats.tsx:26-28 | the previous weighing is absent exactly when every weighing shares the latest one's id; otherwise it is the latest weighing with another id |
| Stats.WeightChangeSpec | src/components/Stats.tsx:25-36 | the change is present exactly when a weighing has an id other than the latest weighing's; it is then the latest weight minus the previous weighing's weight |
| Stats.StatsWeightChange | src/components/Stats.tsx:30-36 | the summary's weight change satisfies that characterisation |
| Stats.WeightChangeFrom | src/components/Stats.tsx:32-35 | once both weighings are known, the change is the difference of their parsed weights |
| Stats.WeightDeltaOfWeighings | src/components/Stats.tsx:33-35 | the fallback weight "0" is never used for entries that carry a weight |
| Stats.WeightChangeNeedsTwo | src/components/Stats.tsx:26-32 | a change needs at least two weight-bearing entries; with unique ids, two are also enough |
| Stats.StatsWeightChangeNeedsTwo | src/components/Stats.tsx:25-36 | the same, for the summary |
| Stats.StatsLastFeeding | src/components/Stats.tsx:38-41 | the last feeding is absent exactly when no entry records a feeding; otherwise it is the greatest such date |
| Stats.StatsLastShedding | src/components/Stats.tsx:43-46 | the last shedding is absent exactly when no entry is of kind "shedding"; otherwise it is the greatest such date |
| Stats.StatsAge | src/components/Stats.tsx:48-58 | the age is known exactly when the birth date is, and is then `AgeFromDays` of the day count: whole 365-day years, whole 30-day months of the remainder (at most 12), days modulo 30 (at most 29) |
| Stats.AgeOf400Days | src/components/Stats.tsx:54-56 | 400 days are 1 year, 1 month and 10 days |
| Stats.LatestOfTwo | src/components/Stats.tsx:21-23 | of two qualifying entries, the later one is taken |
| Stats.LatestOfFirst | src/components/Stats.tsx:39-41 | a single qualifying entry is taken whatever its date |
| Stats.WeightChangeOfTwo | src/components/Stats.tsx:25-36 | two weighings with different ids give the later weight minus the earlier |
| Stats.WeightGainExample | src/components/Stats.tsx:30-36 | 100 then 120 is a change of +20 |
| Stats.WeightLossExample | src/components/Stats.tsx:30-36 | 120 then 100 is a change of -20 |
| Stats.SingleWeighingExample | src/components/Stats.tsx:26-32 | a single weighing gives no change, not a change of zero |
| AgeText.PluralForm | src/components/Stats.tsx:92-95 | the agreeing word form is one of the three |
| AgeText.PluralFormRule | src/components/Stats.tsx:92-95 | the case table and the 5..19 override amount to the Russian rule: "one" for a last digit 1 except 11, "few" for 2..4 except 12..14, "many" otherwise |
| AgeText.PluralFormExamples | src/components/Stats.tsx:93-94 | 1, 2, 5, 11, 21 and 112 take forms 0, 1, 2, 2, 0 and 2 |
| AgeText.Pluralize | src/components/Stats.tsx:92-95 | the result is one of the given words |
| AgeText.NatToString | src/components/Stats.tsx:78 | a number's text is non-empty decimal digits without a leading zero |
| AgeText.NatToStringRoundTrip | src/components/Stats.tsx:78 | reading a number's text back gives the number |
| AgeText.FormatAge | src/components/Stats.tsx:73-89 | `formatAge`; characterised by FormatAgeEmpty, FormatAgeTable, FormatAgeHidesDays and FormatAgeLeads |
| AgeText.FormatAgeEmpty | src/components/Stats.tsx:73-89 | no age reads "Неизвестно"; a known age reads "" exactly when all three components are zero |
| AgeText.FormatAgeTable | src/components/Stats.tsx:76-88 | the whole phrase case by case: years then months, years alone, months then days (no years), months alone, separated by single spaces |
| AgeText.FormatAgeHidesDays | src/components/Stats.tsx:83-86 | once there is a whole year, days never change the phrase |
| AgeText.FormatAgeLeads | src/components/Stats.tsx:76-88 | the phrase opens with the largest non-zero component, and days alone read as the days component |
| AgeText.AgeDaysQuirkHidden | src/components/Stats.tsx:54-56 | taking days modulo 30 of the whole count, instead of the remainder after years, never changes the phrase |
| AgeText.FormatAgeOf400Days | src/components/Stats.tsx:73-89 | 400 days read "1 год 1 месяц" |
| EntryList.EntryTypeLabel | src/components/EntryList.tsx:36-47 | `getEntryTypeLabel`; characterised by EntryTypeLabelSpec |
| EntryList.DisplayOrder | src/components/EntryList.tsx:29 | the newest-first order; characterised by DisplayOrderSpec |
| EntryList.Render | src/components/EntryList.tsx:29-111 | the rendered list; characterised by RenderSpec |
| EntryList.EntryTypeLabelSpec | src/components/EntryList.tsx:36-47 | the seven known kinds get their fixed labels; a kind reads as itself exactly when it is not one of them |
| EntryList.DisplayOrderSpec | src/components/EntryList.tsx:29 | the list shows every entry as often as it is stored, dates never increasing, headed by the newest entry stored first |
| EntryList.Shown | src/components/EntryList.tsx:82-111 | an optional field is shown exactly when it is non-empty, and then as stored |
| EntryList.RenderSpec | src/components/EntryList.tsx:29-111 | no entries gives the empty state; otherwise one card per entry in display order, each with the entry's id, date and kind label, showing each field exactly when it is non-empty |
| AddEntryForm.VisibleFor | src/components/AddEntryForm.tsx:128-130 | the kind-to-visibility rule; characterised by VisibleForKinds |
| AddEntryForm.VisibleForKinds | src/components/AddEntryForm.tsx:126-131 | "checkup" reveals every group; weight, environment and feeding reveal only their own; any other kind reveals nothing |
| AddEntryForm.SchemaErrors | src/components/AddEntryForm.tsx:21-29 | the schema rejects a submission exactly when the kind is empty |
| AddEntryForm.BuildEntry | src/components/AddEntryForm.tsx:61-73 | the entry carries the given id, the form's reptile id and the creation time; the form values read back from it unchanged; a valid form gives a non-empty kind |
| AddEntryForm.EntryForm.constructor | src/components/AddEntryForm.tsx:38-59 | mounting sets the default values and, from the empty kind, all three flags off; the form holds no reptile id of its own |
| AddEntryForm.EntryForm.SelectKind | src/components/AddEntryForm.tsx:126-131 | choosing a kind stores it and sets the flags to that kind's visibility |
| AddEntryForm.EntryForm.PickDate | src/components/AddEntryForm.tsx:106-109 | a date after now is disabled and changes nothing; any other date is stored |
| AddEntryForm.EntryForm.EnterText | src/components/AddEntryForm.tsx:154-230 | typing into a rendered input stores the text in that field only |
| AddEntryForm.EntryForm.Submit | src/components/AddEntryForm.tsx:61-81 | an invalid form submits nothing and keeps its values; a valid one hands over the entry built for the `reptileId` prop given at submit time, and resets to the defaults, flags untouched |
| AddReptileForm.SchemaErrors | src/components/AddReptileForm.tsx:20-25 | the schema rejects a submission exactly when name or species is empty, with one message per empty field |
| AddReptileForm.BuildReptile | src/components/AddReptileForm.tsx:45-53 | the reptile carries the given id and creation time; the form values, including an absent birth date, read back from it unchanged; a valid form gives a name and a species |
| AddReptileForm.ReptileForm.constructor | src/components/AddReptileForm.tsx:34-43 | the form starts closed, with empty name and species and gender "unknown" |
| AddReptileForm.ReptileForm.Open | src/components/AddReptileForm.tsx:62-66 | the add button opens the form |
| AddReptileForm.ReptileForm.Cancel | src/components/AddReptileForm.tsx:155 | cancel closes the form and keeps the values |
| AddReptileForm.ReptileForm.EnterName | src/components/AddReptileForm.tsx:70-82 | typing a name changes only the name |
| AddReptileForm.ReptileForm.EnterSpecies | src/components/AddReptileForm.tsx:84-96 | typing a species changes only the species |
| AddReptileForm.ReptileForm.SelectGender | src/components/AddReptileForm.tsx:131-152 | choosing a gender changes only the gender |
| AddReptileForm.ReptileForm.PickBirthDate | src/components/AddReptileForm.tsx:117-123 | only dates from 1 January 1900 up to this call's now can be picked; a disabled date leaves the values unchanged, so a birth date picked in this call lies in that range |
| AddReptileForm.ReptileForm.Submit | src/components/AddReptileForm.tsx:45-58 | an invalid form stays open and unchanged; a valid one hands over the built reptile, resets to the defaults and closes |
| App.CascadeKeepsNoOrphans | src/App.tsx:62-68 | removing a reptile together with its entries leaves every entry with a stored reptile |
| App.AppendReptileKeepsNoOrphans | src/App.tsx:50-54 | adding a reptile orphans no entry |
| App.FirstIdValid | src/App.tsx:70-75 | the first remaining reptile's id, or none, is a valid selection; none exactly when no reptile remains |
| App.Diary.constructor | src/App.tsx:16-18 | the first render has no reptiles, no entries and no selection, and all invariants hold |
| App.Diary.Load | src/App.tsx:21-38 | saved collections replace the state when found; the first saved reptile is selected when there is one and nothing is selected; starting with no selection, the selection afterwards names a stored reptile |
| App.Diary.AddReptile | src/App.tsx:50-54 | the reptile is appended and selected, the entries are untouched, and the invariants are kept (id uniqueness when the id is new) |
| App.Diary.AddEntry | src/App.tsx:57-59 | the entry is appended; no orphan appears when its reptile is stored; ids stay unique when its id is new |
| App.Diary.DeleteReptile | src/App.tsx:62-76 | the reptile and, in cascade, its entries are removed; everything else is kept in order; the first remaining reptile is selected, never the deleted one; all invariants are kept |
| App.Diary.DeleteEntry | src/App.tsx:79-81 | entries with that id are removed and all others kept in order; reptiles and selection unchanged; invariants kept; an id no entry has leaves the entries exactly as they were |
| App.Diary.SubmitEntryForm | src/App.tsx:115-119 | the entry form, shown only while a stored reptile is selected: an invalid form adds nothing and keeps its values; a valid one appends the entry built from its values for the reptile selected at submit time and resets the form to its defaults, so no orphan appears |
| App.Diary.Select | src/App.tsx:108 | selecting one of the stored reptiles' ids sets the selected id and nothing else, so the selection names a stored reptile |
| App.Diary.FilteredEntries | src/App.tsx:84 | exactly the stored entries of the selected reptile, each as often as stored and in stored order (a `Filter`, so FilterConcat applies); none when nothing is selected |
| App.Diary.SelectedReptile | src/App.tsx:87 | a stored reptile with the selected id, absent exactly when no stored reptile has it |
| App.DeleteSelectedSelectsFirst | src/App.tsx:62-76 | after adding A then B (B selected), deleting B selects A |
| App.DeleteLastSelectsNothing | src/App.tsx:70-75 | deleting the only reptile leaves nothing selected |

## Left out

- Persistence to `localStorage`, and the `JSON.stringify`/`JSON.parse` round trip, are not modelled. `Load` receives the collections already parsed, or none when a key is missing. A corrupt stored value, which makes the unguarded `JSON.parse` throw, is not modelled.
- The persistence effects' ordering under React (the save effects run on the first render with empty arrays) is left out, with the rest of React's rendering and effect scheduling.
- `uuidv4()` and `new Date()` are parameters (`id`, `now`).
- `Diary.AddReptile` and `Diary.AddEntry` state id uniqueness only as "kept when the new id is fresh". A random UUID is not assumed fresh.
- Dates are millisecond timestamps. ISO-8601 formatting (`toISOString`, `parseISO`) and the displayed date text (`format(..., "d MMMM yyyy")`) are not modelled.
- `Stats.ComputeStats` takes `differenceInDays(new Date(), birthDate)` as the parameter `ageInDays: nat`. A birth date in the future, which gives a negative count, is not modelled.
- `Stats.ComputeStats` takes `Number.parseFloat` as a parameter `parseWeight: string -> real`. Floating-point rounding and NaN for non-numeric text are not modelled.
- `EntryList.EntryTypeLabel`: the label lookup on a plain object would also find inherited keys such as "constructor". The model uses a map of the seven own keys only.
- `AddReptileForm.ReptileForm.PickBirthDate` and `AddEntryForm.EntryForm.PickDate` do not model clearing a date by clicking the selected day again. The entry date is therefore always set, as the default supplies it.
- The zod and react-hook-form machinery is reduced to the schema functions and the `Submit` methods: field registration, error display and the submit event. The JSX layout, the theme toggle, the confirmation dialogs and `ReptileSelect` are left out, except that `Select` and `DeleteReptile` are the handlers `ReptileSelect` calls.
