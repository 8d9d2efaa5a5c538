/** The new-reptile form (src/components/AddReptileForm.tsx): an add button
    that opens it, the schema check, and the record a successful submission
    produces. The reptile id (`uuidv4()`) and the clock (`new Date()`) are
    parameters. */
module AddReptileForm {
  import opened Wrappers
  import opened Types

  /** `new Date("1900-01-01")`: midnight UTC, in milliseconds since the epoch. */
  const EarliestBirthDate: int := -2208988800000

  /** The form's values; gender can only be one of the three genders. */
  datatype ReptileValues = ReptileValues(
    name: string,
    species: string,
    birthDate: Option<int>,
    gender: Gender)

  /** `defaultValues`, restored by `form.reset()`: gender defaults to unknown. */
  const DefaultValues: ReptileValues := ReptileValues("", "", None, Unknown)

  /** The zod schema: name and species must be non-empty; birth date is
      optional. One message per failing field. */
  function SchemaErrors(v: ReptileValues): (errors: seq<FieldError>)
    ensures errors == [] <==> v.name != "" && v.species != ""
    ensures FieldError("name", "Имя обязательно") in errors <==> v.name == ""
    ensures FieldError("species", "Вид обязателен") in errors <==> v.species == ""
  {
    (if v.name == "" then [FieldError("name", "Имя обязательно")] else [])
    + (if v.species == "" then [FieldError("species", "Вид обязателен")] else [])
  }

  /** What a reptile records of the form's values. */
  function ValuesOf(r: Reptile): ReptileValues {
    ReptileValues(r.name, r.species, r.birthDate, r.gender)
  }

  /** `onSubmit`'s record: name, species, birth date (absent stays absent)
      and gender carried over, so the values can be read back from the
      reptile; id and creation time supplied. A valid form yields a reptile
      with a name and a species. */
  function BuildReptile(v: ReptileValues, id: string, now: int): (r: Reptile)
    ensures r.id == id && r.createdAt == now
    ensures ValuesOf(r) == v
    ensures SchemaErrors(v) == [] ==> r.name != "" && r.species != ""
  {
    Reptile(id, v.name, v.species, v.birthDate, v.gender, now)
  }

  /** The calendar's enabled days: from 1 January 1900 up to now. */
  predicate Selectable(date: int, now: int) {
    !(date > now || date < EarliestBirthDate)
  }

  class ReptileForm {
    var isOpen: bool
    var values: ReptileValues

    constructor ()
      ensures !isOpen && values == DefaultValues
    {
      isOpen := false;
      values := DefaultValues;
    }

    /** The add button, shown only while the form is closed. */
    method Open()
      requires !isOpen
      modifies this`isOpen
      ensures isOpen
    {
      isOpen := true;
    }

    /** Cancel closes the form without clearing what was typed. */
    method Cancel()
      requires isOpen
      modifies this`isOpen
      ensures !isOpen
    {
      isOpen := false;
    }

    method EnterName(name: string)
      requires isOpen
      modifies this`values
      ensures values == old(values).(name := name)
    {
      values := values.(name := name);
    }

    method EnterSpecies(species: string)
      requires isOpen
      modifies this`values
      ensures values == old(values).(species := species)
    {
      values := values.(species := species);
    }

    method SelectGender(gender: Gender)
      requires isOpen
      modifies this`values
      ensures values == old(values).(gender := gender)
    {
      values := values.(gender := gender);
    }

    /** Picking a birth date: disabled days do nothing. */
    method PickBirthDate(date: int, now: int)
      requires isOpen
      modifies this`values
      ensures values == if Selectable(date, now) then old(values).(birthDate := Some(date)) else old(values)
      ensures values.birthDate.Some? ==> values.birthDate == old(values).birthDate || EarliestBirthDate <= values.birthDate.value <= now
    {
      if Selectable(date, now) {
        values := values.(birthDate := Some(date));
      }
    }

    /** `handleSubmit(onSubmit)`: when the schema fails the form stays open
        and unchanged; otherwise the reptile goes to the parent, the values
        return to their defaults and the form closes. */
    method Submit(id: string, now: int) returns (added: Option<Reptile>)
      requires isOpen
      modifies this
      ensures SchemaErrors(old(values)) != [] ==> added.None? && isOpen && values == old(values)
      ensures SchemaErrors(old(values)) == [] ==>
        added == Some(BuildReptile(old(values), id, now)) && !isOpen && values == DefaultValues
    {
      if SchemaErrors(values) != [] {
        added := None;
      } else {
        added := Some(BuildReptile(values, id, now));
        values := DefaultValues;
        isOpen := false;
      }
    }
  }
}
