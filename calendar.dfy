/** Dates as day numbers and the date functions the queries apply to them:
    `EXTRACT(YEAR | MONTH | DOW ...)` and `DATE_TRUNC('week', ...)`. */
module Calendar {

  /** A DATE is a day number; day 0 is 1970-01-01, a Thursday. */
  type Date = int

  /** `EXTRACT(DOW FROM d)`: 0 is Sunday, 6 is Saturday. */
  function DayOfWeek(d: Date): (r: int)
    ensures 0 <= r <= 6
  {
    (d + 4) % 7
  }

  /** ISO 8601 weekday counted from Monday: 0 is Monday, 6 is Sunday. */
  function IsoWeekdayOffset(d: Date): (r: int)
    ensures 0 <= r <= 6
    ensures r == (DayOfWeek(d) + 6) % 7
  {
    (d + 3) % 7
  }

  /** `DATE_TRUNC('week', d)`: the Monday that starts d's ISO week. */
  function WeekStart(d: Date): (r: Date)
    ensures r <= d < r + 7
    ensures DayOfWeek(r) == 1
  {
    d - IsoWeekdayOffset(d)
  }

  /** Two dates share a week start exactly when they lie in the same
      Monday-to-Sunday block. */
  lemma WeekStartBlock(d: Date, e: Date)
    ensures WeekStart(d) == WeekStart(e) <==> WeekStart(d) <= e < WeekStart(d) + 7
  {
    var m := WeekStart(d);
    if m <= e < m + 7 {
      assert (m + 3) % 7 == 0;
      assert (e + 3) % 7 == e - m;
    }
  }

  /** Proleptic Gregorian (year, month, day) of a day number, by the
      era-based civil-from-days conversion (eras of 400 years, years
      counted from March). */
  function Civil(d: Date): (ymd: (int, int, int))
    ensures 1 <= ymd.1 <= 12
    ensures 1 <= ymd.2 <= 31
  {
    var z := d + 719468;
    var era := z / 146097;
    var doe := z % 146097;
    var yoe := (doe - doe / 1460 + doe / 36524 - doe / 146096) / 365;
    var doy := doe - (365 * yoe + yoe / 4 - yoe / 100);
    var mp := (5 * doy + 2) / 153;
    var day := doy - (153 * mp + 2) / 5 + 1;
    var month := if mp < 10 then mp + 3 else mp - 9;
    (yoe + era * 400 + (if month <= 2 then 1 else 0), month, day)
  }

  /** `EXTRACT(YEAR FROM d)`. */
  function Year(d: Date): int {
    Civil(d).0
  }

  /** `EXTRACT(MONTH FROM d)`. */
  function Month(d: Date): (r: int)
    ensures 1 <= r <= 12
  {
    Civil(d).1
  }

  /** Fixed points of the calendar that check `Civil`, `DayOfWeek` and
      `WeekStart` against known dates: the epoch 1970-01-01 is a Thursday,
      and day 19358 is 2023-01-01, a Sunday whose ISO week starts on
      Monday 2022-12-26 (day 19352), in the year before. */
  lemma EpochIsThursday()
    ensures Civil(0) == (1970, 1, 1) && DayOfWeek(0) == 4
  {
    assert 719468 / 146097 == 4 && 719468 % 146097 == 135080;
    assert 135080 / 1460 == 92 && 135080 / 36524 == 3 && 135080 / 146096 == 0;
    assert 134991 / 365 == 369;
    assert 369 / 4 == 92 && 369 / 100 == 3;
    assert 1532 / 5 == 306;
    assert 1532 / 153 == 10;
  }

  lemma NewYear2023IsSunday()
    ensures Civil(19358) == (2023, 1, 1) && DayOfWeek(19358) == 0
    ensures WeekStart(19358) == 19352
  {
    assert 738826 / 146097 == 5 && 738826 % 146097 == 8341;
    assert 8341 / 1460 == 5 && 8341 / 36524 == 0 && 8341 / 146096 == 0;
    assert 8336 / 365 == 22;
    assert 22 / 4 == 5 && 22 / 100 == 0;
    assert 1532 / 153 == 10 && 1532 / 5 == 306;
    assert 19361 % 7 == 6 && 19362 % 7 == 0;
  }
}
