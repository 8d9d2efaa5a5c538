/** The new-entry form (src/components/AddEntryForm.tsx): which measurement
    fields the chosen kind reveals, the schema check, and the record a
    successful submission produces. The form's reptile id comes from its
    props; the entry id (`uuidv4()`) and the clock (`new Date()`) are
    parameters. */
module AddEntryForm {
  import opened Wrappers
  import opened Types

  /** The form's values. The date is always set: it starts as "now", the
      calendar only replaces it, and a reset sets "now" again. */
  datatype EntryValues = EntryValues(
    date: int,
    kind: string,
    weight: Option<string>,
    temperature: Option<string>,
    humidity: Option<string>,
    feeding: Option<string>,
    notes: Option<string>)

  /** `defaultValues` and the values of `form.reset` after a submission. */
  function DefaultValues(now: int): EntryValues {
    EntryValues(now, "", None, None, None, None, Some(""))
  }

  /** The three visibility flags, in the order weight, environment
      (temperature and humidity), feeding. */
  datatype Visibility = Visibility(weight: bool, environment: bool, feeding: bool)

  /** The Select handler's rule: each group of fields belongs to its own kind
      and to "checkup". */
  function VisibleFor(kind: string): Visibility {
    Visibility(
      kind == "weight" || kind == "checkup",
      kind == "environment" || kind == "checkup",
      kind == "feeding" || kind == "checkup")
  }

  /** "checkup" reveals everything; the other three kinds with fields reveal
      only their own group; every other kind, the empty one included,
      reveals nothing. */
  lemma VisibleForKinds(kind: string)
    ensures VisibleFor("checkup") == Visibility(true, true, true)
    ensures VisibleFor("weight") == Visibility(true, false, false)
    ensures VisibleFor("environment") == Visibility(false, true, false)
    ensures VisibleFor("feeding") == Visibility(false, false, true)
    ensures kind !in {"checkup", "weight", "environment", "feeding"} ==> VisibleFor(kind) == Visibility(false, false, false)
  {
  }

  datatype TextField = Weight | Temperature | Humidity | Feeding | Notes

  /** The zod schema: only the kind is required; every measurement and the
      notes are optional. */
  function SchemaErrors(v: EntryValues): (errors: seq<FieldError>)
    ensures errors == [] <==> v.kind != ""
  {
    if v.kind == "" then [FieldError("type", "Тип записи обязателен")] else []
  }

  /** What an entry records of the form's values. */
  function ValuesOf(e: Entry): EntryValues {
    EntryValues(e.date, e.kind, e.weight, e.temperature, e.humidity, e.feeding, e.notes)
  }

  /** `onSubmit`'s record: reptile id from the form's props, everything the
      user entered carried over unchanged, so the values can be read back
      from the entry; a valid form yields an entry of a non-empty kind. */
  function BuildEntry(reptileId: string, v: EntryValues, id: string, now: int): (e: Entry)
    ensures e.id == id && e.reptileId == reptileId && e.createdAt == now
    ensures ValuesOf(e) == v
    ensures SchemaErrors(v) == [] ==> e.kind != ""
  {
    Entry(id, reptileId, v.date, v.kind, v.weight, v.temperature, v.humidity, v.feeding, v.notes, now)
  }

  class EntryForm {
    var showWeightField: bool
    var showEnvironmentFields: bool
    var showFeedingField: bool
    var values: EntryValues

    function Flags(): Visibility
      reads this
    {
      Visibility(showWeightField, showEnvironmentFields, showFeedingField)
    }

    /** An input can be typed into only while it is rendered. */
    predicate Rendered(field: TextField)
      reads this
    {
      match field
      case Weight => showWeightField
      case Temperature => showEnvironmentFields
      case Humidity => showEnvironmentFields
      case Feeding => showFeedingField
      case Notes => true
    }

    /** Mounting: default values, and the one-off `useState` initializer,
        which computes the flags from the default kind "" and so leaves all
        three off. */
    constructor (now: int)
      ensures values == DefaultValues(now)
      ensures Flags() == VisibleFor("") == Visibility(false, false, false)
    {
      values := DefaultValues(now);
      var initial := VisibleFor(DefaultValues(now).kind);
      showWeightField := initial.weight;
      showEnvironmentFields := initial.environment;
      showFeedingField := initial.feeding;
    }

    /** The kind Select's change handler. */
    method SelectKind(kind: string)
      modifies this
      ensures values == old(values).(kind := kind)
      ensures Flags() == VisibleFor(kind)
    {
      values := values.(kind := kind);
      var v := VisibleFor(kind);
      showWeightField := v.weight;
      showEnvironmentFields := v.environment;
      showFeedingField := v.feeding;
    }

    /** The calendar: days after now are disabled, so picking one does
        nothing. */
    method PickDate(date: int, now: int)
      modifies this`values
      ensures values == if date <= now then old(values).(date := date) else old(values)
    {
      if date <= now {
        values := values.(date := date);
      }
    }

    /** Typing into a rendered text input. */
    method EnterText(field: TextField, text: string)
      requires Rendered(field)
      modifies this`values
      ensures values == match field
        case Weight => old(values).(weight := Some(text))
        case Temperature => old(values).(temperature := Some(text))
        case Humidity => old(values).(humidity := Some(text))
        case Feeding => old(values).(feeding := Some(text))
        case Notes => old(values).(notes := Some(text))
    {
      match field
      case Weight => values := values.(weight := Some(text));
      case Temperature => values := values.(temperature := Some(text));
      case Humidity => values := values.(humidity := Some(text));
      case Feeding => values := values.(feeding := Some(text));
      case Notes => values := values.(notes := Some(text));
    }

    /** `handleSubmit(onSubmit)`: when the schema fails nothing happens;
        otherwise the entry is handed to the parent and the values reset
        (to kind "" and notes ""), while the visibility flags keep their
        state. Values typed into a field that a later kind hid are still
        submitted. The reptile id is the `reptileId` prop at the time of
        the submit: the form stays mounted when another reptile is selected,
        so what was typed for one reptile is submitted for the next. */
    method Submit(reptileId: string, id: string, now: int) returns (added: Option<Entry>)
      modifies this`values
      ensures SchemaErrors(old(values)) != [] ==> added.None? && values == old(values)
      ensures SchemaErrors(old(values)) == [] ==>
        added == Some(BuildEntry(reptileId, old(values), id, now)) && values == DefaultValues(now)
    {
      if SchemaErrors(values) != [] {
        added := None;
      } else {
        added := Some(BuildEntry(reptileId, values, id, now));
        values := DefaultValues(now);
      }
    }
  }
}
