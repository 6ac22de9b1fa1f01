/** The time-of-day comparison of DateTimeHelper.IsTimePast: two DateTimes are compared
    by the seconds elapsed since their own midnight; dates and sub-second ticks play no part. */
module TimeOfDay {
  import opened Clock

  /** Seconds since midnight, the local function GetSecondsFromMidnight. */
  function SecondsFromMidnight(t: DateTime): (s: int)
    ensures 0 <= s <= 86399
    ensures s / 3600 == t.hour && s % 3600 / 60 == t.minute && s % 60 == t.second
  {
    t.hour * 60 * 60 + t.minute * 60 + t.second
  }

  /** True when the time of day of `target` is strictly later than that of `base`. */
  predicate IsTimePast(target: DateTime, base: DateTime) {
    SecondsFromMidnight(target) > SecondsFromMidnight(base)
  }

  /** Lexicographic order on (hour, minute, second): an independent statement of "later in the day". */
  predicate LaterClockReading(a: DateTime, b: DateTime) {
    || a.hour > b.hour
    || (a.hour == b.hour && a.minute > b.minute)
    || (a.hour == b.hour && a.minute == b.minute && a.second > b.second)
  }

  /** The comparison agrees with reading the clock face field by field. */
  lemma IsTimePastIsLexicographic(a: DateTime, b: DateTime)
    ensures IsTimePast(a, b) <==> LaterClockReading(a, b)
  {
    var sa, sb := SecondsFromMidnight(a), SecondsFromMidnight(b);
    if a.hour != b.hour {
      assert IsTimePast(a, b) <==> a.hour > b.hour by {
        if a.hour > b.hour {
          assert sa >= a.hour * 3600 >= (b.hour + 1) * 3600 > sb;
        } else {
          assert sb >= b.hour * 3600 >= (a.hour + 1) * 3600 > sa;
        }
      }
    } else if a.minute != b.minute {
      assert IsTimePast(a, b) <==> a.minute > b.minute by {
        if a.minute > b.minute {
          assert sa - a.hour * 3600 >= (b.minute + 1) * 60 > sb - b.hour * 3600;
        } else {
          assert sb - b.hour * 3600 >= (a.minute + 1) * 60 > sa - a.hour * 3600;
        }
      }
    }
  }

  /** Only hour, minute and second matter: the date and the ticks are ignored. */
  lemma IsTimePastIgnoresDate(a: DateTime, a': DateTime, b: DateTime, b': DateTime)
    requires a.hour == a'.hour && a.minute == a'.minute && a.second == a'.second
    requires b.hour == b'.hour && b.minute == b'.minute && b.second == b'.second
    ensures IsTimePast(a, b) == IsTimePast(a', b')
  {
  }

  /** Equal times of day are not "past" each other. */
  lemma IsTimePastIsStrict(a: DateTime, b: DateTime)
    requires a.hour == b.hour && a.minute == b.minute && a.second == b.second
    ensures !IsTimePast(a, b) && !IsTimePast(b, a)
  {
  }

  lemma IsTimePastIsAsymmetric(a: DateTime, b: DateTime)
    ensures !(IsTimePast(a, b) && IsTimePast(b, a))
  {
  }

  lemma IsTimePastIsTransitive(a: DateTime, b: DateTime, c: DateTime)
    requires IsTimePast(a, b) && IsTimePast(b, c)
    ensures IsTimePast(a, c)
  {
  }

  /** Two times of day are either equal or one is past the other. */
  lemma IsTimePastIsTotal(a: DateTime, b: DateTime)
    ensures IsTimePast(a, b) || IsTimePast(b, a)
            || (a.hour == b.hour && a.minute == b.minute && a.second == b.second)
  {
    IsTimePastIsLexicographic(a, b);
    IsTimePastIsLexicographic(b, a);
  }
}
