/** DateTimeHalper.ToDiagnosticString: "[" + the "u" (universal sortable) rendering
    "yyyy-MM-dd HH:mm:ss'Z'" with trailing 'Z' characters trimmed + "] ". The "u" pattern
    formats the components as given; it does not convert the value to UTC. */
module DiagnosticStamp {
  import opened Clock
  import opened Strings

  /** The "u" standard pattern: zero-padded fields in the order year, month, day, hour,
      minute, second, separated by '-', ' ' and ':', followed by a literal 'Z'. */
  function UniversalSortable(t: DateTime): string {
    Layout(PadDigits(t.year, 4), PadDigits(t.month, 2), PadDigits(t.day, 2),
           PadDigits(t.hour, 2), PadDigits(t.minute, 2), PadDigits(t.second, 2))
  }

  /** The fixed text of the "u" pattern around its six fields. */
  function Layout(year: string, month: string, day: string, hour: string, minute: string, second: string): string {
    year + "-" + month + "-" + day + " " + hour + ":" + minute + ":" + second + "Z"
  }

  /** With fields of widths 4, 2, 2, 2, 2, 2 the layout puts each field and separator at a
      fixed position. */
  lemma LayoutPositions(year: string, month: string, day: string, hour: string, minute: string, second: string)
    requires |year| == 4 && |month| == 2 && |day| == 2 && |hour| == 2 && |minute| == 2 && |second| == 2
    ensures var u := Layout(year, month, day, hour, minute, second);
      && |u| == 20 && u[4] == '-' && u[7] == '-' && u[10] == ' ' && u[13] == ':' && u[16] == ':' && u[19] == 'Z'
      && u[0..4] == year && u[5..7] == month && u[8..10] == day
      && u[11..13] == hour && u[14..16] == minute && u[17..19] == second
  {
  }

  /** String.TrimEnd('Z'). */
  function TrimEndZ(s: string): string {
    TrimEndBy(s, c => c == 'Z')
  }

  function ToDiagnosticString(t: DateTime): (r: string)
    ensures |r| == 22
    ensures r[0] == '[' && r[20..] == "] "
    ensures r[19] != 'Z'
    ensures forall k :: 1 <= k < 20 ==> r[k] == UniversalSortable(t)[k - 1]
  {
    FieldsHaveFixedWidth(t);
    var u := UniversalSortable(t);
    LayoutPositions(PadDigits(t.year, 4), PadDigits(t.month, 2), PadDigits(t.day, 2),
                    PadDigits(t.hour, 2), PadDigits(t.minute, 2), PadDigits(t.second, 2));
    var body := u[..19];
    assert u == body + "Z";
    assert body[18] == PadDigits(t.second, 2)[1];
    TrimEndOneZ(body);
    "[" + TrimEndZ(u) + "] "
  }

  /** Trimming 'Z' from a body that does not itself end in 'Z' removes exactly the suffix. */
  lemma TrimEndOneZ(body: string)
    requires body != [] && body[|body| - 1] != 'Z'
    ensures TrimEndZ(body + "Z") == body
  {
    var u := body + "Z";
    assert u[..|u| - 1] == body;
    assert TrimEndBy(body, c => c == 'Z') == body;
  }

  lemma FieldsHaveFixedWidth(t: DateTime)
    ensures |PadDigits(t.year, 4)| == 4 && DigitsValue(PadDigits(t.year, 4)) == t.year
    ensures |PadDigits(t.month, 2)| == 2 && DigitsValue(PadDigits(t.month, 2)) == t.month
    ensures |PadDigits(t.day, 2)| == 2 && DigitsValue(PadDigits(t.day, 2)) == t.day
    ensures |PadDigits(t.hour, 2)| == 2 && DigitsValue(PadDigits(t.hour, 2)) == t.hour
    ensures |PadDigits(t.minute, 2)| == 2 && DigitsValue(PadDigits(t.minute, 2)) == t.minute
    ensures |PadDigits(t.second, 2)| == 2 && DigitsValue(PadDigits(t.second, 2)) == t.second
  {
    assert Pow10(2) == 100 && Pow10(4) == 10000;
    PadDigitsExact(t.year, 4);
    PadDigitsExact(t.month, 2);
    PadDigitsExact(t.day, 2);
    PadDigitsExact(t.hour, 2);
    PadDigitsExact(t.minute, 2);
    PadDigitsExact(t.second, 2);
  }

  /** The stamp is "[yyyy-MM-dd HH:mm:ss] ": the separators sit at fixed positions and each
      field reads back as the component it renders. */
  lemma DiagnosticStringReadsBack(t: DateTime)
    ensures var r := ToDiagnosticString(t);
      && r[5] == '-' && r[8] == '-' && r[11] == ' ' && r[14] == ':' && r[17] == ':'
      && AllDigits(r[1..5]) && DigitsValue(r[1..5]) == t.year
      && AllDigits(r[6..8]) && DigitsValue(r[6..8]) == t.month
      && AllDigits(r[9..11]) && DigitsValue(r[9..11]) == t.day
      && AllDigits(r[12..14]) && DigitsValue(r[12..14]) == t.hour
      && AllDigits(r[15..17]) && DigitsValue(r[15..17]) == t.minute
      && AllDigits(r[18..20]) && DigitsValue(r[18..20]) == t.second
  {
    FieldsHaveFixedWidth(t);
    var r := ToDiagnosticString(t);
    var u := UniversalSortable(t);
    var year, month, day := PadDigits(t.year, 4), PadDigits(t.month, 2), PadDigits(t.day, 2);
    var hour, minute, second := PadDigits(t.hour, 2), PadDigits(t.minute, 2), PadDigits(t.second, 2);
    LayoutPositions(year, month, day, hour, minute, second);
    assert r[1..5] == u[0..4];
    assert r[6..8] == u[5..7];
    assert r[9..11] == u[8..10];
    assert r[12..14] == u[11..13];
    assert r[15..17] == u[14..16];
    assert r[18..20] == u[17..19];
  }

  /** Two stamps are equal only for equal components down to the second: the stamp drops
      nothing but the sub-second ticks. */
  lemma DiagnosticStringDeterminesSecond(a: DateTime, b: DateTime)
    requires ToDiagnosticString(a) == ToDiagnosticString(b)
    ensures a.year == b.year && a.month == b.month && a.day == b.day
    ensures a.hour == b.hour && a.minute == b.minute && a.second == b.second
  {
    DiagnosticStringReadsBack(a);
    DiagnosticStringReadsBack(b);
  }
}
