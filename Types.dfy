/** The two record shapes of the diary (src/lib/types.ts).
    Identifiers and free-text fields are strings; every date is an integer
    timestamp in milliseconds, which is what the application compares. */
module Types {
  import opened Wrappers

  /** A reptile's gender: exactly one of three values. */
  datatype Gender = Male | Female | Unknown

  /** A reptile profile; only the birth date is optional. */
  datatype Reptile = Reptile(
    id: string,
    name: string,
    species: string,
    birthDate: Option<int>,
    gender: Gender,
    createdAt: int)

  /** A dated observation. Its kind (the source's `type` field, renamed
      because `type` is a Dafny keyword) is any string, not an enumeration,
      and every measurement field is independently optional. */
  datatype Entry = Entry(
    id: string,
    reptileId: string,
    date: int,
    kind: string,
    weight: Option<string>,
    temperature: Option<string>,
    humidity: Option<string>,
    feeding: Option<string>,
    notes: Option<string>,
    createdAt: int)

  /** A schema message for one form field. */
  datatype FieldError = FieldError(field: string, message: string)

  /** JavaScript truthiness of an optional string: present and non-empty. */
  predicate Truthy(o: Option<string>) {
    o.Some? && o.value != ""
  }

  function ReptileId(r: Reptile): string { r.id }

  function EntryId(e: Entry): string { e.id }
}
