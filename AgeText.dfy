/** The age phrase of the statistics panel (src/components/Stats.tsx):
    Russian three-form plural agreement and the years/months/days phrase. */
module AgeText {
  import opened Wrappers
  import opened Seqs
  import opened Stats

  const YearForms: seq<string> := ["год", "года", "лет"]
  const MonthForms: seq<string> := ["месяц", "месяца", "месяцев"]
  const DayForms: seq<string> := ["день", "дня", "дней"]
  const UnknownAge: string := "Неизвестно"

  /** Which of the three word forms agrees with `count`: the source's table
      `[2, 0, 1, 1, 1, 2]` indexed by the last digit (capped at 5), overridden
      by form 2 when the last two digits are 5 to 19. */
  function PluralForm(count: nat): (i: nat)
    ensures i < 3
  {
    var cases := [2, 0, 1, 1, 1, 2];
    if 4 < count % 100 < 20 then 2
    else cases[if count % 10 < 5 then count % 10 else 5]
  }

  /** The usual statement of the rule: "one" for a last digit 1 except 11,
      "few" for 2 to 4 except 12 to 14, "many" for everything else. */
  lemma PluralFormRule(count: nat)
    ensures PluralForm(count) == 0 <==> count % 10 == 1 && count % 100 != 11
    ensures PluralForm(count) == 1 <==> 2 <= count % 10 <= 4 && !(12 <= count % 100 <= 14)
    ensures PluralForm(count) == 2 <==>
      !(count % 10 == 1 && count % 100 != 11) && !(2 <= count % 10 <= 4 && !(12 <= count % 100 <= 14))
  {
    assert count % 10 == (count % 100) % 10;
  }

  lemma PluralFormExamples()
    ensures PluralForm(1) == 0 && PluralForm(2) == 1 && PluralForm(5) == 2
    ensures PluralForm(11) == 2 && PluralForm(21) == 0 && PluralForm(112) == 2
  {
  }

  /** `words[...]` for the agreeing form. */
  function Pluralize(count: nat, words: seq<string>): (w: string)
    requires |words| == 3
    ensures w in words
  {
    words[PluralForm(count)]
  }

  function DigitChar(d: nat): char
    requires d < 10
  {
    "0123456789"[d]
  }

  /** Decimal text of a whole number, as a template literal writes it. */
  function NatToString(n: nat): (s: string)
    ensures s != []
    ensures forall c :: c in s ==> '0' <= c <= '9'
    ensures n > 0 ==> s[0] != '0'
  {
    if n < 10 then [DigitChar(n)]
    else NatToString(n / 10) + [DigitChar(n % 10)]
  }

  /** The value of a string of decimal digits. */
  function DecimalValue(s: string): nat
    requires forall c :: c in s ==> '0' <= c <= '9'
  {
    if s == [] then 0
    else
      var init := s[..|s| - 1];
      assert forall c :: c in init ==> c in s;
      assert s[|s| - 1] in s;
      10 * DecimalValue(init) + ((s[|s| - 1] as int) - ('0' as int))
  }

  /** Reading the text back gives the number. */
  lemma {:induction false} NatToStringRoundTrip(n: nat)
    ensures DecimalValue(NatToString(n)) == n
  {
    if n >= 10 {
      NatToStringRoundTrip(n / 10);
      var s := NatToString(n);
      assert s[..|s| - 1] == NatToString(n / 10);
    }
  }

  /** One component of the phrase: `${n} ${pluralize(n, words)}`. */
  function AgePart(n: nat, words: seq<string>): string
    requires |words| == 3
  {
    NatToString(n) + " " + Pluralize(n, words)
  }

  /** The non-zero components in the order years, months, days; days only
      when there are no whole years. */
  function AgeParts(a: Age): seq<string> {
    (if a.years > 0 then [AgePart(a.years, YearForms)] else [])
    + (if a.months > 0 then [AgePart(a.months, MonthForms)] else [])
    + (if a.days > 0 && a.years == 0 then [AgePart(a.days, DayForms)] else [])
  }

  /** `formatAge`. */
  function FormatAge(age: Option<Age>): string {
    match age
    case None => UnknownAge
    case Some(a) => Join(AgeParts(a), " ")
  }

  /** An unknown age reads "Неизвестно"; a known one is empty exactly when all
      three components are zero. */
  lemma FormatAgeEmpty(a: Age)
    ensures FormatAge(None) == UnknownAge
    ensures FormatAge(Some(a)) == "" <==> a.years == 0 && a.months == 0 && a.days == 0
  {
    var parts := AgeParts(a);
    forall p | p in parts ensures p != "" { }
    JoinEmpty(parts, " ");
  }

  /** Days never show once there is a whole year. */
  lemma FormatAgeHidesDays(a: Age)
    requires a.years > 0
    ensures FormatAge(Some(a)) == FormatAge(Some(a.(days := 0)))
  {
  }

  /** The phrase opens with the largest non-zero component: years, else
      months, else days. */
  lemma FormatAgeLeads(a: Age)
    ensures a.years > 0 ==> AgePart(a.years, YearForms) <= FormatAge(Some(a))
    ensures a.years == 0 && a.months > 0 ==> AgePart(a.months, MonthForms) <= FormatAge(Some(a))
    ensures a.years == 0 && a.months == 0 && a.days > 0 ==> FormatAge(Some(a)) == AgePart(a.days, DayForms)
  {
  }

  /** The whole phrase, case by case: the components that show, in order,
      separated by single spaces. */
  lemma FormatAgeTable(a: Age)
    ensures a.years > 0 && a.months > 0 ==>
      FormatAge(Some(a)) == AgePart(a.years, YearForms) + " " + AgePart(a.months, MonthForms)
    ensures a.years > 0 && a.months == 0 ==>
      FormatAge(Some(a)) == AgePart(a.years, YearForms)
    ensures a.years == 0 && a.months > 0 && a.days > 0 ==>
      FormatAge(Some(a)) == AgePart(a.months, MonthForms) + " " + AgePart(a.days, DayForms)
    ensures a.years == 0 && a.months > 0 && a.days == 0 ==>
      FormatAge(Some(a)) == AgePart(a.months, MonthForms)
  {
    if a.years > 0 && a.months > 0 {
      assert AgeParts(a) == [AgePart(a.years, YearForms), AgePart(a.months, MonthForms)];
    } else if a.years == 0 && a.months > 0 && a.days > 0 {
      assert AgeParts(a) == [AgePart(a.months, MonthForms), AgePart(a.days, DayForms)];
    }
  }

  /** Taking days from the whole count instead of from what years and months
      leave over never changes the phrase: it can differ only once there is
      a whole year, and then days are hidden. */
  lemma AgeDaysQuirkHidden(d: nat)
    ensures FormatAge(Some(AgeFromDays(d))) == FormatAge(Some(AgeFromDays(d).(days := (d % 365) % 30)))
  {
    var a := AgeFromDays(d);
    if d < 365 {
      assert d % 365 == d;
    } else {
      FormatAgeHidesDays(a);
      FormatAgeHidesDays(a.(days := (d % 365) % 30));
    }
  }

  /** 400 days read "1 год 1 месяц". */
  lemma FormatAgeOf400Days()
    ensures FormatAge(Some(AgeFromDays(400))) == "1 год 1 месяц"
  {
    AgeOf400Days();
    assert NatToString(1) == "1";
    assert PluralForm(1) == 0;
    assert AgePart(1, YearForms) == "1 год";
    assert AgePart(1, MonthForms) == "1 месяц";
    assert AgeParts(Age(1, 1, 10)) == ["1 год"] + ["1 месяц"] + [];
    assert Join(["1 год", "1 месяц"], " ") == "1 год" + " " + Join(["1 месяц"], " ");
  }
}
