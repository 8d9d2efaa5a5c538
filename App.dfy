/** The application's state (src/App.tsx): the reptile and entry collections
    and the selected reptile's id, with the handlers that replace them. The
    mirroring of both collections into browser storage is not modelled;
    `Load` receives what was already read and parsed. */
module App {
  import opened Wrappers
  import opened Types
  import opened Seqs
  import AddEntryForm

  /** `reptile => reptile.id !== id`. */
  function OtherReptile(id: string): Reptile -> bool {
    (r: Reptile) => r.id != id
  }

  /** `entry => entry.reptileId !== id`. */
  function NotOfReptile(id: string): Entry -> bool {
    (e: Entry) => e.reptileId != id
  }

  /** `entry => entry.id !== id`. */
  function OtherEntry(id: string): Entry -> bool {
    (e: Entry) => e.id != id
  }

  /** `entry => entry.reptileId === selectedReptileId`; never true when
      nothing is selected. */
  function OfSelected(selected: Option<string>): Entry -> bool {
    (e: Entry) => selected == Some(e.reptileId)
  }

  /** `reptile => reptile.id === selectedReptileId`. */
  function IsSelected(selected: Option<string>): Reptile -> bool {
    (r: Reptile) => selected == Some(r.id)
  }

  /** The selection a deletion leaves: the first remaining reptile, if any. */
  function FirstId(reptiles: seq<Reptile>): Option<string> {
    if reptiles == [] then None else Some(reptiles[0].id)
  }

  /** Every entry belongs to one of the reptiles. */
  ghost predicate NoOrphansIn(reptiles: seq<Reptile>, entries: seq<Entry>) {
    forall e :: e in entries ==> exists r :: r in reptiles && r.id == e.reptileId
  }

  /** The selection, if any, names one of the reptiles. */
  ghost predicate SelectionIn(reptiles: seq<Reptile>, selected: Option<string>) {
    selected.Some? ==> exists r :: r in reptiles && r.id == selected.value
  }

  /** Deleting a reptile together with its entries leaves no orphan behind. */
  lemma {:induction false} CascadeKeepsNoOrphans(reptiles: seq<Reptile>, entries: seq<Entry>, id: string)
    requires NoOrphansIn(reptiles, entries)
    ensures NoOrphansIn(Filter(OtherReptile(id), reptiles), Filter(NotOfReptile(id), entries))
  {
    var rs := Filter(OtherReptile(id), reptiles);
    forall e | e in Filter(NotOfReptile(id), entries)
      ensures exists r :: r in rs && r.id == e.reptileId
    {
      var r :| r in reptiles && r.id == e.reptileId;
      assert OtherReptile(id)(r);
    }
  }

  /** Appending a reptile orphans nothing. */
  lemma {:induction false} AppendReptileKeepsNoOrphans(reptiles: seq<Reptile>, entries: seq<Entry>, reptile: Reptile)
    requires NoOrphansIn(reptiles, entries)
    ensures NoOrphansIn(reptiles + [reptile], entries)
  {
    forall e | e in entries
      ensures exists r :: r in reptiles + [reptile] && r.id == e.reptileId
    {
      var r :| r in reptiles && r.id == e.reptileId;
      assert r in reptiles + [reptile];
    }
  }

  /** The first remaining reptile is a valid selection, and so is none. */
  lemma FirstIdValid(reptiles: seq<Reptile>)
    ensures SelectionIn(reptiles, FirstId(reptiles))
    ensures FirstId(reptiles).None? <==> reptiles == []
  {
    if reptiles != [] {
      assert reptiles[0] in reptiles;
    }
  }

  class Diary {
    var reptiles: seq<Reptile>
    var entries: seq<Entry>
    var selectedReptileId: Option<string>

    /** Every entry belongs to a stored reptile. */
    ghost predicate NoOrphans()
      reads this
    {
      NoOrphansIn(reptiles, entries)
    }

    /** The selection, if any, names a stored reptile. */
    ghost predicate SelectionValid()
      reads this
    {
      SelectionIn(reptiles, selectedReptileId)
    }

    /** Ids are unique within each collection. */
    ghost predicate IdsUnique()
      reads this
    {
      Unique(ReptileId, reptiles) && Unique(EntryId, entries)
    }

    /** The first render: both collections empty, nothing selected. */
    constructor ()
      ensures reptiles == [] && entries == [] && selectedReptileId == None
      ensures NoOrphans() && SelectionValid() && IdsUnique()
    {
      reptiles := [];
      entries := [];
      selectedReptileId := None;
    }

    /** The mount effect: adopt the saved collections that were found, and
        select the first saved reptile when there is one and nothing is
        selected yet. */
    method Load(savedReptiles: Option<seq<Reptile>>, savedEntries: Option<seq<Entry>>)
      modifies this
      ensures reptiles == (if savedReptiles.Some? then savedReptiles.value else old(reptiles))
      ensures entries == (if savedEntries.Some? then savedEntries.value else old(entries))
      ensures selectedReptileId ==
        if savedReptiles.Some? && |savedReptiles.value| > 0 && old(selectedReptileId).None?
        then Some(savedReptiles.value[0].id)
        else old(selectedReptileId)
      ensures old(selectedReptileId).None? ==> SelectionValid()
    {
      if savedReptiles.Some? {
        var parsedReptiles := savedReptiles.value;
        reptiles := parsedReptiles;
        if |parsedReptiles| > 0 && selectedReptileId.None? {
          selectedReptileId := Some(parsedReptiles[0].id);
          assert reptiles[0] in reptiles;
        }
      }
      if savedEntries.Some? {
        entries := savedEntries.value;
      }
    }

    /** `addReptile`: append and select the new reptile. */
    method AddReptile(reptile: Reptile)
      modifies this
      ensures reptiles == old(reptiles) + [reptile]
      ensures entries == old(entries)
      ensures selectedReptileId == Some(reptile.id)
      ensures old(NoOrphans()) ==> NoOrphans()
      ensures SelectionValid()
      ensures old(IdsUnique()) && (forall r :: r in old(reptiles) ==> r.id != reptile.id) ==> IdsUnique()
    {
      var newReptiles := reptiles + [reptile];
      reptiles := newReptiles;
      selectedReptileId := Some(reptile.id);
      assert reptile in reptiles;
      if old(IdsUnique()) && (forall r :: r in old(reptiles) ==> r.id != reptile.id) {
        AppendUnique(ReptileId, old(reptiles), reptile);
      }
      if old(NoOrphans()) {
        AppendReptileKeepsNoOrphans(old(reptiles), entries, reptile);
      }
    }

    /** `addEntry`: append, whatever reptile the entry names. */
    method AddEntry(entry: Entry)
      modifies this
      ensures entries == old(entries) + [entry]
      ensures reptiles == old(reptiles) && selectedReptileId == old(selectedReptileId)
      ensures old(NoOrphans()) && (exists r :: r in reptiles && r.id == entry.reptileId) ==> NoOrphans()
      ensures old(SelectionValid()) ==> SelectionValid()
      ensures old(IdsUnique()) && (forall e :: e in old(entries) ==> e.id != entry.id) ==> IdsUnique()
    {
      entries := entries + [entry];
      if old(IdsUnique()) && (forall e :: e in old(entries) ==> e.id != entry.id) {
        AppendUnique(EntryId, old(entries), entry);
      }
    }

    /** `deleteReptile`: drop the reptile and, in cascade, its entries; keep
        everything else in order; select the first remaining reptile. */
    method DeleteReptile(id: string)
      modifies this
      ensures reptiles == Filter(OtherReptile(id), old(reptiles))
      ensures entries == Filter(NotOfReptile(id), old(entries))
      ensures selectedReptileId == FirstId(reptiles)
      ensures forall r :: r in reptiles ==> r.id != id
      ensures forall e :: e in entries ==> e.reptileId != id
      ensures forall r :: r in old(reptiles) && r.id != id ==> r in reptiles
      ensures forall e :: e in old(entries) && e.reptileId != id ==> e in entries
      ensures selectedReptileId != Some(id)
      ensures old(NoOrphans()) ==> NoOrphans()
      ensures SelectionValid()
      ensures old(IdsUnique()) ==> IdsUnique()
    {
      var newReptiles := Filter(OtherReptile(id), reptiles);
      reptiles := newReptiles;
      var newEntries := Filter(NotOfReptile(id), entries);
      entries := newEntries;
      if |newReptiles| > 0 {
        selectedReptileId := Some(newReptiles[0].id);
      } else {
        selectedReptileId := None;
      }
      FirstIdValid(newReptiles);
      if old(IdsUnique()) {
        FilterUnique(OtherReptile(id), ReptileId, old(reptiles));
        FilterUnique(NotOfReptile(id), EntryId, old(entries));
      }
      if old(NoOrphans()) {
        CascadeKeepsNoOrphans(old(reptiles), old(entries), id);
      }
    }

    /** `deleteEntry`: drop the entries with that id, keep the rest in order. */
    method DeleteEntry(id: string)
      modifies this
      ensures entries == Filter(OtherEntry(id), old(entries))
      ensures forall e :: e in entries ==> e.id != id
      ensures forall e :: e in old(entries) && e.id != id ==> e in entries
      ensures reptiles == old(reptiles) && selectedReptileId == old(selectedReptileId)
      ensures old(NoOrphans()) ==> NoOrphans()
      ensures old(SelectionValid()) ==> SelectionValid()
      ensures old(IdsUnique()) ==> IdsUnique()
      ensures (forall e :: e in old(entries) ==> e.id != id) ==> entries == old(entries)
    {
      entries := Filter(OtherEntry(id), entries);
      if forall e :: e in old(entries) ==> e.id != id {
        FilterIdentity(OtherEntry(id), old(entries));
      }
      if old(IdsUnique()) {
        FilterUnique(OtherEntry(id), EntryId, old(entries));
      }
    }

    /** The entry form is rendered only while a stored reptile is selected,
        with that reptile's id as of the submit, and hands its entry to
        `addEntry`: so the form never creates an orphan. */
    method SubmitEntryForm(form: AddEntryForm.EntryForm, id: string, now: int) returns (added: Option<Entry>)
      requires SelectedReptile().Some?
      modifies this, form`values
      ensures added ==
        if AddEntryForm.SchemaErrors(old(form.values)) == []
        then Some(AddEntryForm.BuildEntry(old(selectedReptileId).value, old(form.values), id, now))
        else None
      ensures form.values ==
        if AddEntryForm.SchemaErrors(old(form.values)) == []
        then AddEntryForm.DefaultValues(now)
        else old(form.values)
      ensures added.Some? ==> added.value.reptileId == old(selectedReptileId).value
      ensures entries == old(entries) + (if added.Some? then [added.value] else [])
      ensures reptiles == old(reptiles) && selectedReptileId == old(selectedReptileId)
      ensures old(NoOrphans()) ==> NoOrphans()
    {
      ghost var selected := SelectedReptile().value;
      added := form.Submit(selectedReptileId.value, id, now);
      if added.Some? {
        AddEntry(added.value);
        assert selected in reptiles && selected.id == added.value.reptileId;
      }
    }

    /** Choosing a reptile in the selector, whose options are the stored
        reptiles' ids. */
    method Select(id: string)
      requires exists r :: r in reptiles && r.id == id
      modifies this
      ensures selectedReptileId == Some(id)
      ensures reptiles == old(reptiles) && entries == old(entries)
      ensures SelectionValid()
    {
      selectedReptileId := Some(id);
    }

    /** `filteredEntries`: the selected reptile's entries in stored order. */
    function FilteredEntries(): (r: seq<Entry>)
      reads this
      ensures forall e :: e in r <==> e in entries && selectedReptileId == Some(e.reptileId)
      ensures forall e :: multiset(r)[e] == if selectedReptileId == Some(e.reptileId) then multiset(entries)[e] else 0
      ensures r == Filter(OfSelected(selectedReptileId), entries)
      ensures selectedReptileId.None? ==> r == []
    {
      var selected := selectedReptileId;
      Filter(OfSelected(selected), entries)
    }

    /** `selectedReptile`: the first reptile with the selected id. */
    function SelectedReptile(): (r: Option<Reptile>)
      reads this
      ensures r.Some? ==> r.value in reptiles && selectedReptileId == Some(r.value.id)
      ensures r.None? <==> forall x :: x in reptiles ==> selectedReptileId != Some(x.id)
    {
      var selected := selectedReptileId;
      Find(IsSelected(selected), reptiles)
    }
  }

  /** Reptiles A and B added in turn leave B selected; deleting B selects
      A, the first reptile left. */
  method DeleteSelectedSelectsFirst(a: Reptile, b: Reptile) returns (selected: Option<string>)
    requires a.id != b.id
    ensures selected == Some(a.id)
  {
    var diary := new Diary();
    diary.AddReptile(a);
    diary.AddReptile(b);
    assert diary.reptiles == [a, b] && diary.selectedReptileId == Some(b.id);
    diary.DeleteReptile(b.id);
    assert [a, b][1..] == [b];
    assert diary.reptiles[0] == a;
    selected := diary.selectedReptileId;
  }

  /** Deleting the only reptile selects nothing. */
  method DeleteLastSelectsNothing(a: Reptile) returns (selected: Option<string>)
    ensures selected == None
  {
    var diary := new Diary();
    diary.AddReptile(a);
    assert diary.reptiles == [a];
    diary.DeleteReptile(a.id);
    selected := diary.selectedReptileId;
  }
}
