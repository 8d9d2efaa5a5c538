/** The statistics panel's derivation (src/components/Stats.tsx): from a
    reptile and its entries to a summary. The panel reads the clock through
    `differenceInDays(new Date(), birthDate)` and parses weights with
    `Number.parseFloat`; both arrive here as parameters (`ageInDays`,
    `parseWeight`). */
module Stats {
  import opened Wrappers
  import opened Types
  import opened Seqs
  import opened DateSort

  /** An approximate age: 365-day years, 30-day months. */
  datatype Age = Age(years: nat, months: nat, days: nat)

  datatype Summary = Summary(
    totalEntries: nat,
    firstEntryDate: Option<int>,
    lastEntryDate: Option<int>,
    lastWeight: Option<string>,
    weightChange: Option<real>,
    lastFeeding: Option<int>,
    lastShedding: Option<int>,
    age: Option<Age>)

  predicate HasWeight(e: Entry) { Truthy(e.weight) }

  predicate HasFeeding(e: Entry) { Truthy(e.feeding) }

  predicate IsShedding(e: Entry) { e.kind == "shedding" }

  /** The filter for the previous weighing: weight-bearing and not the latest
      weighing's id (any weight-bearing entry when there is no latest). */
  function WeighedOtherThan(latest: Option<Entry>): Entry -> bool {
    (e: Entry) => HasWeight(e) && (latest.None? || e.id != latest.value.id)
  }

  /** `xs[0]`, undefined on an empty array. */
  function First(s: seq<Entry>): Option<Entry> {
    if s == [] then None else Some(s[0])
  }

  /** `xs[xs.length - 1]`, undefined on an empty array. */
  function Last(s: seq<Entry>): Option<Entry> {
    if s == [] then None else Some(s[|s| - 1])
  }

  function DateOf(e: Option<Entry>): Option<int> {
    if e.Some? then Some(e.value.date) else None
  }

  /** `[...entries].filter(p).sort(newest first)[0]`. */
  function LatestWhere(p: Entry -> bool, entries: seq<Entry>): Option<Entry> {
    First(SortByDate(Descending, Filter(p, entries)))
  }

  /** `weight || "0"`. */
  function WeightOrZero(e: Entry): string {
    if HasWeight(e) then e.weight.value else "0"
  }

  /** Age arithmetic: `Math.floor(d / 365)`, `Math.floor((d % 365) / 30)` and
      `d % 30`. Days are taken from the whole count, not from what the years
      and months leave over. */
  function AgeFromDays(d: nat): (a: Age)
    ensures a.years * 365 <= d < (a.years + 1) * 365
    ensures a.months * 30 <= d - a.years * 365 < (a.months + 1) * 30
    ensures a.months <= 12
    ensures a.days < 30 && (d / 30) * 30 + a.days == d
  {
    Age(d / 365, (d % 365) / 30, d % 30)
  }

  /** The latest weighing minus the one before it, when both exist. */
  function WeightDelta(latest: Option<Entry>, previous: Option<Entry>, parseWeight: string -> real): Option<real> {
    if latest.Some? && previous.Some? then
      Some(parseWeight(WeightOrZero(latest.value)) - parseWeight(WeightOrZero(previous.value)))
    else None
  }

  /** The previous weighing: the latest weight-bearing entry whose id is not
      the latest weighing's. */
  function PreviousWeighing(entries: seq<Entry>): Option<Entry> {
    LatestWhere(WeighedOtherThan(LatestWhere(HasWeight, entries)), entries)
  }

  function WeightChange(entries: seq<Entry>, parseWeight: string -> real): Option<real> {
    WeightDelta(LatestWhere(HasWeight, entries), PreviousWeighing(entries), parseWeight)
  }

  /** The whole summary the panel renders. */
  function ComputeStats(reptile: Reptile, entries: seq<Entry>, ageInDays: nat, parseWeight: string -> real): Summary {
    var sortedEntries := SortByDate(Ascending, entries);
    var lastWeightEntry := LatestWhere(HasWeight, entries);
    var lastFeedingEntry := LatestWhere(HasFeeding, entries);
    var lastSheddingEntry := LatestWhere(IsShedding, entries);
    var age := if reptile.birthDate.Some? then Some(AgeFromDays(ageInDays)) else None;
    Summary(
      |entries|,
      DateOf(First(sortedEntries)),
      DateOf(Last(sortedEntries)),
      if lastWeightEntry.Some? then lastWeightEntry.value.weight else None,
      WeightChange(entries, parseWeight),
      DateOf(lastFeedingEntry),
      DateOf(lastSheddingEntry),
      age)
  }

  /** The "latest X" pattern: absent exactly when no entry qualifies;
      otherwise a qualifying entry that no qualifying entry post-dates. */
  lemma LatestWhereSpec(p: Entry -> bool, entries: seq<Entry>)
    ensures LatestWhere(p, entries).None? <==> forall e :: e in entries ==> !p(e)
    ensures LatestWhere(p, entries).Some? ==>
      var l := LatestWhere(p, entries).value;
      && l in entries && p(l)
      && forall e :: e in entries && p(e) ==> e.date <= l.date
  {
    var f := Filter(p, entries);
    if f != [] {
      LatestWhereFirstStored(p, entries);
      var l := f[LatestIndex(f)];
      assert l in f;
      forall e | e in entries && p(e) ensures e.date <= l.date {
        assert e in f;
      }
    }
  }

  /** Among equally late qualifying entries, the "latest X" is the one stored
      first, because the sort is stable. */
  lemma LatestWhereFirstStored(p: Entry -> bool, entries: seq<Entry>)
    requires exists e :: e in entries && p(e)
    ensures var f := Filter(p, entries);
      f != [] && LatestWhere(p, entries) == Some(f[LatestIndex(f)])
  {
    var f := Filter(p, entries);
    var e :| e in entries && p(e);
    assert e in f;
    SortDescendingHead(f);
  }

  /** Each field of the summary, one by one. */
  lemma StatsFields(reptile: Reptile, entries: seq<Entry>, ageInDays: nat, parseWeight: string -> real)
    ensures var s := ComputeStats(reptile, entries, ageInDays, parseWeight);
      && s.firstEntryDate == DateOf(First(SortByDate(Ascending, entries)))
      && s.lastEntryDate == DateOf(Last(SortByDate(Ascending, entries)))
      && s.lastWeight == (var l := LatestWhere(HasWeight, entries); if l.Some? then l.value.weight else None)
      && s.weightChange == WeightChange(entries, parseWeight)
      && s.lastFeeding == DateOf(LatestWhere(HasFeeding, entries))
      && s.lastShedding == DateOf(LatestWhere(IsShedding, entries))
      && s.age == if reptile.birthDate.Some? then Some(AgeFromDays(ageInDays)) else None
  {
  }

  /** Counting, and the empty diary: no entries means nothing but a zero
      count and, independently, the age. */
  lemma StatsEmpty(reptile: Reptile, entries: seq<Entry>, ageInDays: nat, parseWeight: string -> real)
    ensures ComputeStats(reptile, entries, ageInDays, parseWeight).totalEntries == |entries|
    ensures entries == [] ==>
      var s := ComputeStats(reptile, entries, ageInDays, parseWeight);
      && s.firstEntryDate.None? && s.lastEntryDate.None?
      && s.lastWeight.None? && s.weightChange.None?
      && s.lastFeeding.None? && s.lastShedding.None?
  {
  }

  /** The first and last entry dates are the earliest and latest dates. */
  lemma StatsEntryDates(reptile: Reptile, entries: seq<Entry>, ageInDays: nat, parseWeight: string -> real)
    ensures var s := ComputeStats(reptile, entries, ageInDays, parseWeight);
      && (s.firstEntryDate.None? <==> entries == [])
      && (s.lastEntryDate.None? <==> entries == [])
      && (entries != [] ==>
            && (exists e :: e in entries && e.date == s.firstEntryDate.value)
            && (exists e :: e in entries && e.date == s.lastEntryDate.value)
            && forall e :: e in entries ==> s.firstEntryDate.value <= e.date <= s.lastEntryDate.value)
  {
    StatsFields(reptile, entries, ageInDays, parseWeight);
    if entries != [] {
      SortAscendingEnds(entries);
    }
  }

  /** The current weight comes from a weighing no weighing post-dates, and is
      absent exactly when no entry carries a weight. */
  lemma StatsLastWeight(reptile: Reptile, entries: seq<Entry>, ageInDays: nat, parseWeight: string -> real)
    ensures var s := ComputeStats(reptile, entries, ageInDays, parseWeight);
      && (s.lastWeight.None? <==> forall e :: e in entries ==> !HasWeight(e))
      && (s.lastWeight.Some? ==>
            && s.lastWeight.value != ""
            && exists l :: l in entries && l.weight == s.lastWeight
                 && forall e :: e in entries && HasWeight(e) ==> e.date <= l.date)
  {
    StatsFields(reptile, entries, ageInDays, parseWeight);
    LatestWhereSpec(HasWeight, entries);
  }

  /** `prev` carries a weight, has an id other than the latest weighing's, is
      no later than it, and no other such weighing is later than `prev`. */
  predicate IsPreviousWeighing(prev: Entry, latest: Entry, entries: seq<Entry>) {
    && prev in entries && HasWeight(prev) && prev.id != latest.id
    && prev.date <= latest.date
    && forall e :: e in entries && HasWeight(e) && e.id != latest.id ==> e.date <= prev.date
  }

  /** `change` is a correct weight change for `entries`: present exactly
      when some weighing has an id other than the latest weighing's, and
      then the latest weight minus the weight of the previous weighing. */
  ghost predicate IsWeightChange(change: Option<real>, entries: seq<Entry>, parseWeight: string -> real) {
    var latest := LatestWhere(HasWeight, entries);
    && (change.Some? <==>
          latest.Some? && exists e :: e in entries && HasWeight(e) && e.id != latest.value.id)
    && (change.Some? ==>
          exists prev :: IsPreviousWeighing(prev, latest.value, entries)
            && change.value == parseWeight(latest.value.weight.value) - parseWeight(prev.weight.value))
  }

  /** The summary's weight change is a correct weight change. */
  lemma StatsWeightChange(reptile: Reptile, entries: seq<Entry>, ageInDays: nat, parseWeight: string -> real)
    ensures IsWeightChange(ComputeStats(reptile, entries, ageInDays, parseWeight).weightChange, entries, parseWeight)
  {
    StatsFields(reptile, entries, ageInDays, parseWeight);
    WeightChangeSpec(entries, parseWeight);
  }

  lemma WeightChangeSpec(entries: seq<Entry>, parseWeight: string -> real)
    ensures IsWeightChange(WeightChange(entries, parseWeight), entries, parseWeight)
  {
    var latest := LatestWhere(HasWeight, entries);
    var change := WeightChange(entries, parseWeight);
    if latest.Some? {
      var l := latest.value;
      PreviousWeighingSpec(entries, l);
      var prev := PreviousWeighing(entries);
      if prev.Some? {
        WeightChangeFrom(entries, parseWeight, l, prev.value);
        assert IsPreviousWeighing(prev.value, l, entries);
      } else {
        assert change == WeightDelta(latest, None, parseWeight);
      }
    } else {
      assert change == WeightDelta(None, PreviousWeighing(entries), parseWeight);
    }
  }

  /** Given the latest weighing, the previous weighing is absent exactly when
      every weighing shares the latest one's id. */
  lemma PreviousWeighingSpec(entries: seq<Entry>, l: Entry)
    requires LatestWhere(HasWeight, entries) == Some(l)
    ensures l in entries && HasWeight(l)
    ensures PreviousWeighing(entries).None? <==>
      !exists e :: e in entries && HasWeight(e) && e.id != l.id
    ensures PreviousWeighing(entries).Some? ==>
      IsPreviousWeighing(PreviousWeighing(entries).value, l, entries)
  {
    LatestWhereSpec(HasWeight, entries);
    var p := WeighedOtherThan(Some(l));
    LatestWhereSpec(p, entries);
    assert forall e :: p(e) == (HasWeight(e) && e.id != l.id);
  }

  /** A weight change needs at least two weighings; with unique ids, two
      weighings are also enough. */
  lemma StatsWeightChangeNeedsTwo(reptile: Reptile, entries: seq<Entry>, ageInDays: nat, parseWeight: string -> real)
    ensures ComputeStats(reptile, entries, ageInDays, parseWeight).weightChange.Some? ==>
      |Filter(HasWeight, entries)| >= 2
    ensures Unique(EntryId, entries) && |Filter(HasWeight, entries)| >= 2 ==>
      ComputeStats(reptile, entries, ageInDays, parseWeight).weightChange.Some?
  {
    StatsFields(reptile, entries, ageInDays, parseWeight);
    WeightChangeNeedsTwo(entries, parseWeight);
  }

  lemma WeightChangeNeedsTwo(entries: seq<Entry>, parseWeight: string -> real)
    ensures WeightChange(entries, parseWeight).Some? ==> |Filter(HasWeight, entries)| >= 2
    ensures Unique(EntryId, entries) && |Filter(HasWeight, entries)| >= 2 ==>
      WeightChange(entries, parseWeight).Some?
  {
    WeightChangeSpec(entries, parseWeight);
    var latest := LatestWhere(HasWeight, entries);
    LatestWhereSpec(HasWeight, entries);
    var w := Filter(HasWeight, entries);
    if Unique(EntryId, entries) && |w| >= 2 {
      FilterUnique(HasWeight, EntryId, entries);
      assert w[0] in entries && w[1] in entries;
      assert EntryId(w[0]) != EntryId(w[1]);
      if w[0].id != latest.value.id {
        assert HasWeight(w[0]);
      } else {
        assert HasWeight(w[1]);
      }
    }
    if WeightChange(entries, parseWeight).Some? {
      var e :| e in entries && HasWeight(e) && e.id != latest.value.id;
      assert e in w && latest.value in w && e != latest.value;
      TwoDistinctMembers(w, e, latest.value);
    }
  }

  /** A sequence holding two different values has at least two elements. */
  lemma TwoDistinctMembers(s: seq<Entry>, x: Entry, y: Entry)
    requires x in s && y in s && x != y
    ensures |s| >= 2
  {
  }

  /** The last feeding is the latest date among entries recording a feeding,
      absent exactly when none does. */
  lemma StatsLastFeeding(reptile: Reptile, entries: seq<Entry>, ageInDays: nat, parseWeight: string -> real)
    ensures var s := ComputeStats(reptile, entries, ageInDays, parseWeight);
      && (s.lastFeeding.None? <==> forall e :: e in entries ==> !HasFeeding(e))
      && (s.lastFeeding.Some? ==>
            && (exists e :: e in entries && HasFeeding(e) && e.date == s.lastFeeding.value)
            && forall e :: e in entries && HasFeeding(e) ==> e.date <= s.lastFeeding.value)
  {
    StatsFields(reptile, entries, ageInDays, parseWeight);
    LatestWhereSpec(HasFeeding, entries);
  }

  /** The last shedding is the latest date among entries of kind "shedding",
      absent exactly when there is none. */
  lemma StatsLastShedding(reptile: Reptile, entries: seq<Entry>, ageInDays: nat, parseWeight: string -> real)
    ensures var s := ComputeStats(reptile, entries, ageInDays, parseWeight);
      && (s.lastShedding.None? <==> forall e :: e in entries ==> !IsShedding(e))
      && (s.lastShedding.Some? ==>
            && (exists e :: e in entries && IsShedding(e) && e.date == s.lastShedding.value)
            && forall e :: e in entries && IsShedding(e) ==> e.date <= s.lastShedding.value)
  {
    StatsFields(reptile, entries, ageInDays, parseWeight);
    LatestWhereSpec(IsShedding, entries);
  }

  /** The age is known exactly when the birth date is, and is then the
      day count's years, months and days as `AgeFromDays` splits it: so at
      most 12 months and 29 days beyond its whole years. */
  lemma StatsAge(reptile: Reptile, entries: seq<Entry>, ageInDays: nat, parseWeight: string -> real)
    ensures var s := ComputeStats(reptile, entries, ageInDays, parseWeight);
      && (s.age.None? <==> reptile.birthDate.None?)
      && (s.age.Some? ==>
            && s.age.value.years * 365 <= ageInDays < (s.age.value.years + 1) * 365
            && s.age.value == AgeFromDays(ageInDays)
            && s.age.value.months <= 12 && s.age.value.days <= 29)
  {
    StatsFields(reptile, entries, ageInDays, parseWeight);
  }

  /** 400 days are one year, one month and ten days: the days come from
      400 % 30, not from the 35 days left after the year. */
  lemma AgeOf400Days()
    ensures AgeFromDays(400) == Age(1, 1, 10)
  {
  }

  /** A weighing with only a weight recorded. */
  function Weighing(id: string, date: int, weight: string): Entry {
    Entry(id, "r", date, "weight", Some(weight), None, None, None, None, date)
  }

  lemma LatestOfTwo(p: Entry -> bool, x: Entry, y: Entry)
    requires p(x) && p(y) && x.date < y.date
    ensures LatestWhere(p, [x, y]) == Some(y)
  {
    assert [x, y][1..] == [y];
    assert Filter(p, [y]) == [y];
    assert Filter(p, [x, y]) == [x, y];
    assert [y][1..] == [];
    assert SortByDate(Descending, [y]) == [y];
    assert SortByDate(Descending, [x, y]) == Insert(Descending, x, [y]);
  }

  lemma LatestOfFirst(p: Entry -> bool, x: Entry, y: Entry)
    requires p(x) && !p(y)
    ensures LatestWhere(p, [x, y]) == Some(x)
  {
    assert [x, y][1..] == [y];
    assert Filter(p, [y]) == [];
    assert Filter(p, [x, y]) == [x];
    assert [x][1..] == [];
    assert SortByDate(Descending, [x]) == [x];
  }

  /** Once the latest and the previous weighing are known, the change is
      their weight difference. */
  lemma WeightChangeFrom(entries: seq<Entry>, parseWeight: string -> real, latest: Entry, previous: Entry)
    requires LatestWhere(HasWeight, entries) == Some(latest) && HasWeight(latest)
    requires PreviousWeighing(entries) == Some(previous) && HasWeight(previous)
    ensures WeightChange(entries, parseWeight) == Some(parseWeight(latest.weight.value) - parseWeight(previous.weight.value))
  {
    assert WeightChange(entries, parseWeight) == WeightDelta(Some(latest), Some(previous), parseWeight);
    WeightDeltaOfWeighings(latest, previous, parseWeight);
  }

  lemma WeightDeltaOfWeighings(latest: Entry, previous: Entry, parseWeight: string -> real)
    requires HasWeight(latest) && HasWeight(previous)
    ensures WeightDelta(Some(latest), Some(previous), parseWeight) == Some(parseWeight(latest.weight.value) - parseWeight(previous.weight.value))
  {
    assert WeightOrZero(latest) == latest.weight.value && WeightOrZero(previous) == previous.weight.value;
  }

  /** Two weighings with different ids: the change is the later weight
      minus the earlier one. */
  lemma WeightChangeOfTwo(x: Entry, y: Entry, parseWeight: string -> real)
    requires HasWeight(x) && HasWeight(y) && x.id != y.id && x.date < y.date
    ensures WeightChange([x, y], parseWeight) == Some(parseWeight(y.weight.value) - parseWeight(x.weight.value))
  {
    LatestOfTwo(HasWeight, x, y);
    var p := WeighedOtherThan(Some(y));
    assert p(x) && !p(y);
    LatestOfFirst(p, x, y);
    WeightChangeFrom([x, y], parseWeight, y, x);
  }

  /** 100 g on day 1 then 120 g on day 5 is a gain of 20 g. */
  lemma WeightGainExample(parseWeight: string -> real)
    requires parseWeight("100") == 100.0 && parseWeight("120") == 120.0
    ensures WeightChange([Weighing("a", 1, "100"), Weighing("b", 5, "120")], parseWeight) == Some(20.0)
  {
    WeightChangeOfTwo(Weighing("a", 1, "100"), Weighing("b", 5, "120"), parseWeight);
  }

  /** 120 g on day 1 then 100 g on day 5 is a loss of 20 g. */
  lemma WeightLossExample(parseWeight: string -> real)
    requires parseWeight("100") == 100.0 && parseWeight("120") == 120.0
    ensures WeightChange([Weighing("a", 1, "120"), Weighing("b", 5, "100")], parseWeight) == Some(-20.0)
  {
    WeightChangeOfTwo(Weighing("a", 1, "120"), Weighing("b", 5, "100"), parseWeight);
  }

  /** A single weighing gives no weight change (not a change of zero). */
  lemma SingleWeighingExample(parseWeight: string -> real)
    ensures WeightChange([Weighing("a", 1, "100")], parseWeight) == None
  {
    var a := Weighing("a", 1, "100");
    assert [a][1..] == [];
    assert Filter(WeighedOtherThan(LatestWhere(HasWeight, [a])), [a]) == [];
  }
}
