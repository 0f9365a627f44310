/**
 * ISO week numbers of three dates around the turn of a year, as pandas' isocalendar()
 * gives them.
 */
module CalendarExamples {
  import opened Calendar

  /** 2023-01-02 is day 19359 counted from 1970-01-01. */
  lemma JanuarySecond2023Number()
    ensures DayNumber(Date(2023, 1, 2)) == 19359
  {
    assert Leaps(2022) == 490 && Leaps(1969) == 477;
  }

  /** 2023-01-02 is a Monday. */
  lemma JanuarySecond2023Monday()
    ensures Weekday(DayNumber(Date(2023, 1, 2))) == 1
  {
    JanuarySecond2023Number();
    Day19359IsMonday();
  }

  /** Day 19359 counted from 1970-01-01, a Thursday, is a Monday. */
  lemma Day19359IsMonday()
    ensures Weekday(19359) == 1
  {
  }

  /** The Thursday of the week of 2023-01-02 is the fifth day of 2023. */
  lemma JanuarySecond2023Thursday()
    ensures ThursdayOrdinal(Date(2023, 1, 2)) == 5
  {
    JanuarySecond2023Monday();
    JanuarySecond2023Ordinal();
  }

  /** 2023-01-02 is the second day of its year. */
  lemma JanuarySecond2023Ordinal()
    ensures DayOfYear(Date(2023, 1, 2)) == 2
  {
  }

  /** 2023-01-02 is the Monday that opens ISO week 1 of 2023. */
  lemma IsoWeekOfJanuarySecond2023()
    ensures IsoWeek(Date(2023, 1, 2)) == 1 && IsoYear(Date(2023, 1, 2)) == 2023
  {
    JanuarySecond2023Thursday();
    assert DaysInYear(2023) == 365;
  }

  /** 2023-01-01 is a Sunday and still belongs to week 52 of 2022. */
  lemma IsoWeekOfJanuaryFirst2023()
    ensures IsoWeek(Date(2023, 1, 1)) == 52 && IsoYear(Date(2023, 1, 1)) == 2022
  {
    var d := Date(2023, 1, 1);
    assert Leaps(2022) == 490 && Leaps(1969) == 477;
    assert DayNumber(d) == 19358;
    assert Weekday(DayNumber(d)) == 7;
    assert ThursdayOrdinal(d) == -2;
  }

  /** 2024-12-30 is a Monday whose Thursday falls in 2025, so it opens week 1 of 2025. */
  lemma IsoWeekOfDecember30th2024()
    ensures IsoWeek(Date(2024, 12, 30)) == 1 && IsoYear(Date(2024, 12, 30)) == 2025
  {
    var d := Date(2024, 12, 30);
    assert Leaps(2023) == 490 && Leaps(1969) == 477;
    assert DayNumber(d) == 20087;
    assert Weekday(DayNumber(d)) == 1;
    assert ThursdayOrdinal(d) == 368;
  }
}
