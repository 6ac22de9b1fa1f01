/** Calendar values as .NET's DateTime carries them: a date in years 1 to 9999 and a
    time of day down to 100-nanosecond ticks. Only values .NET can construct exist. */
module Clock {

  predicate IsLeapYear(year: int) {
    year % 4 == 0 && (year % 100 != 0 || year % 400 == 0)
  }

  function DaysInMonth(year: int, month: int): (days: int)
    requires 1 <= month <= 12
    ensures 28 <= days <= 31
  {
    if month == 2 then (if IsLeapYear(year) then 29 else 28)
    else if month == 4 || month == 6 || month == 9 || month == 11 then 30
    else 31
  }

  /** The components of a DateTime; `ticks` is the sub-second part in 100 ns units. */
  datatype DateTimeParts = DateTimeParts(
    year: int, month: int, day: int,
    hour: int, minute: int, second: int,
    ticks: int)
  {
    predicate Valid() {
      && 1 <= year <= 9999
      && 1 <= month <= 12
      && 1 <= day <= DaysInMonth(year, month)
      && 0 <= hour < 24
      && 0 <= minute < 60
      && 0 <= second < 60
      && 0 <= ticks < 10_000_000
    }
  }

  /** A DateTime is a set of components .NET accepts (DateTime.MinValue is the witness). */
  type DateTime = d: DateTimeParts | d.Valid() witness DateTimeParts(1, 1, 1, 0, 0, 0, 0)
}
