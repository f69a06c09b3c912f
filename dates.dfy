/**
 * Calendar dates as the application reads them: the `YYYY-MM-DD` strings that
 * date inputs produce, parsed the way `new Date(s)` is used by the age and
 * sorting code (year, month and day fields, or an invalid date).
 */
module Dates {
  import opened Wrappers
  import opened Text

  /** Calendar fields of a date; `month` runs from 1 to 12 as written in the string. */
  datatype Date = Date(year: int, month: int, day: int)

  predicate WellFormed(d: Date)
  {
    1 <= d.month <= 12 && 1 <= d.day <= 31
  }

  function DigitAt(s: string, i: nat): nat
    requires i < |s| && IsDigit(s[i])
  {
    s[i] as int - '0' as int
  }

  /** `new Date(s)` for an ISO date `YYYY-MM-DD`; `None` is an Invalid Date (its fields read as NaN). */
  function ParseIsoDate(s: string): (r: Option<Date>)
    ensures r.Some? ==> WellFormed(r.value) && 0 <= r.value.year <= 9999
    ensures r.Some? ==> |s| == 10 && s[4] == '-' && s[7] == '-'
  {
    if |s| == 10 && s[4] == '-' && s[7] == '-'
      && IsDigit(s[0]) && IsDigit(s[1]) && IsDigit(s[2]) && IsDigit(s[3])
      && IsDigit(s[5]) && IsDigit(s[6]) && IsDigit(s[8]) && IsDigit(s[9])
    then
      var year := DigitAt(s, 0) * 1000 + DigitAt(s, 1) * 100 + DigitAt(s, 2) * 10 + DigitAt(s, 3);
      var month := DigitAt(s, 5) * 10 + DigitAt(s, 6);
      var day := DigitAt(s, 8) * 10 + DigitAt(s, 9);
      if 1 <= month <= 12 && 1 <= day <= 31 then Some(Date(year, month, day)) else None
    else None
  }

  /** Months counted from year 0, January: the position of the date's month on a month line. */
  function MonthIndex(d: Date): int
  {
    d.year * 12 + (d.month - 1)
  }

  /**
   * `(to.getFullYear() - from.getFullYear()) * 12 + (to.getMonth() - from.getMonth())`:
   * the number of month boundaries from `from`'s month to `to`'s month; the day is ignored.
   */
  function MonthsBetween(from: Date, to: Date): (r: int)
    ensures MonthIndex(from) + r == MonthIndex(to)
    ensures forall d1, d2 :: r == MonthIndex(to.(day := d2)) - MonthIndex(from.(day := d1))
  {
    (to.year - from.year) * 12 + (to.month - from.month)
  }

  /** A number that orders well-formed dates chronologically. */
  function Ordinal(d: Date): int
  {
    (d.year * 13 + d.month) * 32 + d.day
  }

  /** On well-formed dates the ordinal order is the calendar (year, month, day) order. */
  lemma OrdinalIsChronological(a: Date, b: Date)
    requires WellFormed(a) && WellFormed(b)
    ensures Ordinal(a) < Ordinal(b) <==>
      a.year < b.year || (a.year == b.year && (a.month < b.month || (a.month == b.month && a.day < b.day)))
  {
    if a.year < b.year {
      assert Ordinal(a) <= (a.year * 13 + 12) * 32 + 31;
      assert (a.year * 13 + 12) * 32 + 31 < ((a.year + 1) * 13 + 1) * 32 + 1;
      assert ((a.year + 1) * 13 + 1) * 32 + 1 <= Ordinal(b);
    } else if a.year > b.year {
      assert Ordinal(b) <= (b.year * 13 + 12) * 32 + 31;
      assert (b.year * 13 + 12) * 32 + 31 < ((b.year + 1) * 13 + 1) * 32 + 1;
      assert ((b.year + 1) * 13 + 1) * 32 + 1 <= Ordinal(a);
    }
  }

  /** `calcularIdadeMeses(nasc, data)`: months between two date strings, `None` (NaN) when either is invalid. */
  function AgeInMonths(birth: string, at: string): (r: Option<int>)
    ensures r.Some? <==> ParseIsoDate(birth).Some? && ParseIsoDate(at).Some?
    ensures r.Some? ==> MonthIndex(ParseIsoDate(birth).value) + r.value == MonthIndex(ParseIsoDate(at).value)
  {
    match (ParseIsoDate(birth), ParseIsoDate(at))
    case (Some(b), Some(a)) => Some(MonthsBetween(b, a))
    case _ => None
  }

  /**
   * `calcularIdade()`: '' without a birth date; otherwise the months since birth,
   * shown in months below 24 and in whole years from then on. An unreadable date
   * gives NaN months, which is not below 24 and renders as "NaN ano".
   */
  function AgeLabel(birth: string, today: Date): (r: string)
    ensures birth == "" ==> r == ""
    ensures birth != "" && ParseIsoDate(birth).None? ==> r == "NaN ano"
    ensures ParseIsoDate(birth).Some? ==>
      var m := MonthsBetween(ParseIsoDate(birth).value, today);
      (m < 24 ==> r == IntToString(m) + " meses") && (m >= 24 ==> r == NatToString(m / 12) + " anos")
  {
    if birth == "" then ""
    else
      match ParseIsoDate(birth)
      case None => "NaN ano"
      case Some(b) =>
        var m := MonthsBetween(b, today);
        if m < 24 then IntToString(m) + " meses"
        else
          var years: nat := m / 12;
          NatToString(years) + (if years > 1 then " anos" else " ano")
  }

  /** The singular "ano" is never shown for a real age: the years branch starts at two. */
  lemma AgeLabelNeverSingularYear(birth: string, today: Date, n: nat)
    ensures AgeLabel(birth, today) != NatToString(n) + " ano"
  {
    var r := AgeLabel(birth, today);
    var t := NatToString(n) + " ano";
    assert t[|t| - 1] == 'o';
    assert t[0] == NatToString(n)[0] && IsDigit(t[0]);
    if birth == "" {
      assert |r| < |t|;
    } else if ParseIsoDate(birth).None? {
      assert r[0] == 'N' != t[0];
    } else {
      assert r[|r| - 1] == 's' != t[|t| - 1];
    }
  }

  /** A birth date 22 months back is shown in months; the day of the month plays no part. */
  lemma AgeLabelInMonths()
    ensures AgeLabel("2023-04-30", Date(2025, 2, 1)) == "22 meses"
  {
    assert ParseIsoDate("2023-04-30") == Some(Date(2023, 4, 30));
    assert NatToString(22) == "22";
  }

  /** At 24 months the label switches to years. */
  lemma AgeLabelInYears()
    ensures AgeLabel("2022-03-31", Date(2024, 3, 1)) == "2 anos"
  {
    assert ParseIsoDate("2022-03-31") == Some(Date(2022, 3, 31));
    assert NatToString(2) == "2";
  }
}
