/** The diary list (src/components/EntryList.tsx): entries newest first, each
    as a card with its kind's label and the fields that hold something, or an
    empty-state message when there are none. */
module EntryList {
  import opened Wrappers
  import opened Types
  import opened DateSort

  /** Labels for the seven kinds the entry form offers. */
  const TypeLabels: map<string, string> := map[
    "checkup" := "Осмотр",
    "weight" := "Взвешивание",
    "feeding" := "Кормление",
    "shedding" := "Линька",
    "environment" := "Параметры среды",
    "medication" := "Лечение",
    "other" := "Другое"]

  /** `types[type] || type`: the label of a known kind, the kind itself
      otherwise. */
  function EntryTypeLabel(kind: string): string {
    if kind in TypeLabels && TypeLabels[kind] != "" then TypeLabels[kind] else kind
  }

  /** Known kinds get their fixed label, and a kind is shown as itself exactly
      when it is not one of the seven. */
  lemma EntryTypeLabelSpec(kind: string)
    ensures kind in TypeLabels ==> EntryTypeLabel(kind) == TypeLabels[kind]
    ensures EntryTypeLabel(kind) == kind <==> kind !in TypeLabels
  {
  }

  /** The order the list shows: newest first, ties in stored order. */
  function DisplayOrder(entries: seq<Entry>): seq<Entry> {
    SortByDate(Descending, entries)
  }

  /** The list shows every entry exactly as often as it is stored, with dates
      never increasing, headed by the newest entry stored first. */
  lemma DisplayOrderSpec(entries: seq<Entry>)
    ensures multiset(DisplayOrder(entries)) == multiset(entries)
    ensures forall i, j :: 0 <= i < j < |DisplayOrder(entries)| ==>
      DisplayOrder(entries)[i].date >= DisplayOrder(entries)[j].date
    ensures entries != [] ==> DisplayOrder(entries)[0] == entries[LatestIndex(entries)]
  {
    if entries != [] {
      SortDescendingHead(entries);
    }
  }

  /** What one card shows: the date, the kind's label, and each optional
      field only when it holds something. The card's delete action passes
      the entry's id. */
  datatype EntryCard = EntryCard(
    id: string,
    date: int,
    kindLabel: string,
    weight: Option<string>,
    temperature: Option<string>,
    humidity: Option<string>,
    feeding: Option<string>,
    notes: Option<string>)

  datatype ListView = EmptyState | Cards(cards: seq<EntryCard>)

  /** `{field && <div>…</div>}`. */
  function Shown(field: Option<string>): (r: Option<string>)
    ensures r.Some? <==> Truthy(field)
    ensures r.Some? ==> r == field
  {
    if Truthy(field) then field else None
  }

  function CardOf(e: Entry): EntryCard {
    EntryCard(e.id, e.date, EntryTypeLabel(e.kind),
      Shown(e.weight), Shown(e.temperature), Shown(e.humidity), Shown(e.feeding), Shown(e.notes))
  }

  /** The rendered list. */
  function Render(entries: seq<Entry>): ListView {
    var sortedEntries := DisplayOrder(entries);
    if |sortedEntries| == 0 then EmptyState
    else Cards(seq(|sortedEntries|, i requires 0 <= i < |sortedEntries| => CardOf(sortedEntries[i])))
  }

  /** No entries gives the empty state and nothing else; otherwise one card
      per entry, in display order, each showing a field exactly when the
      entry's field is non-empty. */
  lemma RenderSpec(entries: seq<Entry>)
    ensures Render(entries).EmptyState? <==> entries == []
    ensures Render(entries).Cards? ==>
      var cards := Render(entries).cards;
      && |cards| == |entries|
      && forall i :: 0 <= i < |cards| ==>
        var e := DisplayOrder(entries)[i];
        && cards[i].id == e.id && cards[i].date == e.date
        && cards[i].kindLabel == EntryTypeLabel(e.kind)
        && (cards[i].weight.Some? <==> Truthy(e.weight))
        && (cards[i].temperature.Some? <==> Truthy(e.temperature))
        && (cards[i].humidity.Some? <==> Truthy(e.humidity))
        && (cards[i].feeding.Some? <==> Truthy(e.feeding))
        && (cards[i].notes.Some? <==> Truthy(e.notes))
  {
  }
}
