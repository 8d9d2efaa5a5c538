/** Sorting entries by date, as `[...entries].sort((a, b) => a.date - b.date)`
    (ascending) and `(b.date - a.date)` (descending) do. JavaScript's sort is
    stable, so entries with equal dates keep their stored order. The insertion
    sort below places each entry before the first entry it may precede; what
    is proved of its order is the permutation, the date order, and that the
    newest-first head is the newest entry stored first. */
module DateSort {
  import opened Types

  datatype Direction = Ascending | Descending

  /** An entry dated `a` may stand before one dated `b`. */
  predicate InOrder(dir: Direction, a: int, b: int) {
    match dir
    case Ascending => a <= b
    case Descending => a >= b
  }

  predicate Sorted(dir: Direction, s: seq<Entry>) {
    forall i, j :: 0 <= i < j < |s| ==> InOrder(dir, s[i].date, s[j].date)
  }

  /** Places `e` before the first element it may precede. Since `e` came
      earlier in the input than everything in `s`, it goes before entries
      with an equal date: this is what keeps the sort stable. */
  function Insert(dir: Direction, e: Entry, s: seq<Entry>): (r: seq<Entry>)
    ensures multiset(r) == multiset(s) + multiset{e}
  {
    if s == [] || InOrder(dir, e.date, s[0].date) then
      [e] + s
    else
      assert s == [s[0]] + s[1..];
      [s[0]] + Insert(dir, e, s[1..])
  }

  /** A sorted sequence stays sorted under a new head that may precede all
      of it. */
  lemma SortedCons(dir: Direction, h: Entry, t: seq<Entry>)
    requires Sorted(dir, t)
    requires forall x :: x in t ==> InOrder(dir, h.date, x.date)
    ensures Sorted(dir, [h] + t)
  {
    var r := [h] + t;
    forall i, j | 0 <= i < j < |r| ensures InOrder(dir, r[i].date, r[j].date) {
      if i == 0 { assert r[j] == t[j - 1]; }
      else { assert r[i] == t[i - 1] && r[j] == t[j - 1]; }
    }
  }

  /** The head of a sorted sequence may precede every later element. */
  lemma SortedHead(dir: Direction, s: seq<Entry>)
    requires s != [] && Sorted(dir, s)
    ensures forall x :: x in s[1..] ==> InOrder(dir, s[0].date, x.date)
  {
    forall x | x in s[1..] ensures InOrder(dir, s[0].date, x.date) {
      var k :| 0 <= k < |s[1..]| && s[1..][k] == x;
      assert s[k + 1] == x;
    }
  }

  /** Inserting into a sorted sequence keeps it sorted. */
  lemma {:induction false} InsertSorted(dir: Direction, e: Entry, s: seq<Entry>)
    requires Sorted(dir, s)
    ensures Sorted(dir, Insert(dir, e, s))
  {
    if s == [] || InOrder(dir, e.date, s[0].date) {
      if s != [] {
        SortedHead(dir, s);
        assert s == [s[0]] + s[1..];
      }
      SortedCons(dir, e, s);
    } else {
      var rest := Insert(dir, e, s[1..]);
      assert Sorted(dir, s[1..]);
      InsertSorted(dir, e, s[1..]);
      SortedHead(dir, s);
      forall x | x in rest ensures InOrder(dir, s[0].date, x.date) {
        assert x in multiset(rest);
      }
      SortedCons(dir, s[0], rest);
    }
  }

  /** The stable sort of `s` by date in direction `dir`: a permutation of `s`
      whose dates run in that direction. */
  function SortByDate(dir: Direction, s: seq<Entry>): (r: seq<Entry>)
    ensures multiset(r) == multiset(s)
    ensures |r| == |s|
    ensures Sorted(dir, r)
  {
    if s == [] then []
    else
      assert s == [s[0]] + s[1..];
      var rest := SortByDate(dir, s[1..]);
      InsertSorted(dir, s[0], rest);
      Insert(dir, s[0], rest)
  }

  /** The position of the latest-dated entry that is stored first: no entry
      is later, and every entry stored before it is strictly earlier. */
  function LatestIndex(s: seq<Entry>): (i: nat)
    requires s != []
    ensures i < |s|
    ensures forall k :: 0 <= k < |s| ==> s[k].date <= s[i].date
    ensures forall k :: 0 <= k < i ==> s[k].date < s[i].date
  {
    if |s| == 1 then 0
    else
      var j := LatestIndex(s[1..]);
      if s[1 + j].date <= s[0].date then 0 else 1 + j
  }

  /** Stability where it matters: the head of the descending sort is the
      latest entry that was stored first. */
  lemma {:induction false} SortDescendingHead(s: seq<Entry>)
    requires s != []
    ensures SortByDate(Descending, s)[0] == s[LatestIndex(s)]
  {
    if |s| > 1 {
      SortDescendingHead(s[1..]);
    }
  }

  /** The head of the ascending sort carries the earliest date, its last
      element the latest date. */
  lemma SortAscendingEnds(s: seq<Entry>)
    requires s != []
    ensures var r := SortByDate(Ascending, s);
      && r[0] in s && r[|r| - 1] in s
      && forall e :: e in s ==> r[0].date <= e.date <= r[|r| - 1].date
  {
    var r := SortByDate(Ascending, s);
    assert r[0] in multiset(s) && r[|r| - 1] in multiset(s);
    forall e | e in s ensures r[0].date <= e.date <= r[|r| - 1].date {
      assert e in multiset(r);
      var k :| 0 <= k < |r| && r[k] == e;
    }
  }
}
