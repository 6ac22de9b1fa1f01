/** The .NET string operations the core relies on, stated over `seq<char>`:
    String.Trim, String.Trim(char), IndexOf/LastIndexOf with ordinal comparison,
    Split(" ", RemoveEmptyEntries), String.Join, Int32.TryParse with the default
    integer style, the regular expression ^\d+$, and unchecked 32-bit arithmetic. */
module Strings {
  import opened Wrappers

  // ---------------------------------------------------------------------------
  // Trimming

  /** Char.IsWhiteSpace: the Unicode space separators, line and paragraph separators,
      U+0009 to U+000D, U+0085 and U+00A0. */
  predicate IsWhiteSpace(c: char) {
    || c == ' ' || ('\t' <= c <= '\r')
    || c == '\U{0085}' || c == '\U{00A0}' || c == '\U{1680}'
    || ('\U{2000}' <= c <= '\U{200A}')
    || c == '\U{2028}' || c == '\U{2029}' || c == '\U{202F}' || c == '\U{205F}' || c == '\U{3000}'
  }

  /** Removes the leading characters for which `drop` holds. */
  function TrimStartBy(s: string, drop: char -> bool): (r: string)
    ensures |r| <= |s| && r == s[|s| - |r|..]
    ensures r == [] || !drop(r[0])
    ensures forall k :: 0 <= k < |s| - |r| ==> drop(s[k])
    decreases |s|
  {
    if s != [] && drop(s[0]) then TrimStartBy(s[1..], drop) else s
  }

  /** Removes the trailing characters for which `drop` holds. */
  function TrimEndBy(s: string, drop: char -> bool): (r: string)
    ensures |r| <= |s| && r == s[..|r|]
    ensures r == [] || !drop(r[|r| - 1])
    ensures forall k :: |r| <= k < |s| ==> drop(s[k])
    decreases |s|
  {
    if s != [] && drop(s[|s| - 1]) then TrimEndBy(s[..|s| - 1], drop) else s
  }

  /** Removes both leading and trailing characters for which `drop` holds:
      the result is a slice s[i..j] whose ends are kept characters and outside which
      every character is dropped. */
  function TrimBy(s: string, drop: char -> bool): (r: string)
    ensures r == [] || (!drop(r[0]) && !drop(r[|r| - 1]))
    ensures var i := |s| - |TrimStartBy(s, drop)|;
            i + |r| <= |s| && r == s[i..i + |r|]
    ensures forall k :: 0 <= k < |s| - |TrimStartBy(s, drop)| ==> drop(s[k])
    ensures forall k :: |s| - |TrimStartBy(s, drop)| + |r| <= k < |s| ==> drop(s[k])
  {
    var a := TrimStartBy(s, drop);
    var r := TrimEndBy(a, drop);
    TrimEndTail(s, a, r, drop);
    assert r != [] ==> r[0] == a[0];
    r
  }

  lemma TrimEndTail(s: string, a: string, r: string, drop: char -> bool)
    requires |a| <= |s| && a == s[|s| - |a|..]
    requires |r| <= |a| && r == a[..|r|]
    requires forall k :: |r| <= k < |a| ==> drop(a[k])
    ensures r == s[|s| - |a|..|s| - |a| + |r|]
    ensures forall k :: |s| - |a| + |r| <= k < |s| ==> drop(s[k])
  {
    var i := |s| - |a|;
    forall k | i + |r| <= k < |s|
      ensures drop(s[k])
    {
      assert s[k] == a[k - i];
    }
  }

  /** String.Trim(). */
  function Trim(s: string): (r: string)
    ensures IsTrimmed(r)
  {
    TrimBy(s, IsWhiteSpace)
  }

  /** Neither end is white space. */
  predicate IsTrimmed(s: string) {
    s == [] || (!IsWhiteSpace(s[0]) && !IsWhiteSpace(s[|s| - 1]))
  }

  predicate IsQuote(c: char) {
    c == '\''
  }

  /** String.Trim('\''): strips every leading and trailing single quote. */
  function TrimQuotes(s: string): string {
    TrimBy(s, IsQuote)
  }

  /** Trimming twice trims no more than trimming once. */
  lemma TrimIdempotent(s: string)
    ensures Trim(Trim(s)) == Trim(s)
  {
    TrimByKeeps(Trim(s), IsWhiteSpace);
  }

  /** Trimming a string whose end characters are kept leaves it unchanged. */
  lemma TrimByKeeps(s: string, drop: char -> bool)
    requires s == [] || (!drop(s[0]) && !drop(s[|s| - 1]))
    ensures TrimBy(s, drop) == s
  {
    assert TrimStartBy(s, drop) == s;
  }

  /** A string made only of dropped characters trims to the empty string. */
  lemma {:induction false} TrimByAllDropped(s: string, drop: char -> bool)
    requires forall k :: 0 <= k < |s| ==> drop(s[k])
    ensures TrimStartBy(s, drop) == [] && TrimBy(s, drop) == []
  {
    if s != [] {
      TrimByAllDropped(s[1..], drop);
    }
  }

  // ---------------------------------------------------------------------------
  // Searching

  /** IndexOf(c), ordinal: the first position of `c`, or -1. */
  function IndexOf(s: string, c: char): (r: int)
    ensures -1 <= r < |s|
    ensures r == -1 <==> c !in s
    ensures r >= 0 ==> s[r] == c && c !in s[..r]
  {
    if s == [] then -1
    else if s[0] == c then 0
    else
      var r := IndexOf(s[1..], c);
      if r == -1 then -1
      else
        assert s[..r + 1] == [s[0]] + s[1..][..r];
        r + 1
  }

  /** LastIndexOf(c), ordinal: the last position of `c`, or -1. */
  function LastIndexOf(s: string, c: char): (r: int)
    ensures -1 <= r < |s|
    ensures r == -1 <==> c !in s
    ensures r >= 0 ==> s[r] == c && c !in s[r + 1..]
  {
    if s == [] then -1
    else if s[|s| - 1] == c then |s| - 1
    else
      var r := LastIndexOf(s[..|s| - 1], c);
      if r == -1 then
        assert s == s[..|s| - 1] + [s[|s| - 1]];
        -1
      else
        assert s[r + 1..] == s[..|s| - 1][r + 1..] + [s[|s| - 1]];
        r
  }

  // ---------------------------------------------------------------------------
  // Splitting and joining on spaces

  /** Length of the run of non-space characters at the start of `s`. */
  function TokenLength(s: string): (n: nat)
    ensures n <= |s|
    ensures forall k :: 0 <= k < n ==> s[k] != ' '
    ensures n < |s| ==> s[n] == ' '
  {
    if s == [] || s[0] == ' ' then 0 else 1 + TokenLength(s[1..])
  }

  /** Split(new[] {" "}, StringSplitOptions.RemoveEmptyEntries): the maximal runs of
      characters other than U+0020, in order. Other white space stays inside tokens. */
  function SplitOnSpace(s: string): (tokens: seq<string>)
    ensures forall t :: t in tokens ==> t != [] && ' ' !in t
    decreases |s|
  {
    if s == [] then []
    else if s[0] == ' ' then SplitOnSpace(s[1..])
    else
      var n := TokenLength(s);
      [s[..n]] + SplitOnSpace(s[n..])
  }

  /** String.Join(sep, tokens). */
  function Join(sep: string, tokens: seq<string>): string {
    if tokens == [] then []
    else if |tokens| == 1 then tokens[0]
    else tokens[0] + sep + Join(sep, tokens[1..])
  }

  /** Splitting undoes joining with single spaces, for non-empty tokens without spaces. */
  lemma {:induction false} SplitJoinRoundTrip(tokens: seq<string>)
    requires forall t :: t in tokens ==> t != [] && ' ' !in t
    ensures SplitOnSpace(Join(" ", tokens)) == tokens
  {
    if tokens == [] {
    } else {
      var t := tokens[0];
      var rest := if |tokens| == 1 then [] else " " + Join(" ", tokens[1..]);
      var s := Join(" ", tokens);
      assert s == t + rest;
      assert t in tokens;
      TokenLengthOfToken(t, rest);
      assert s[..|t|] == t && s[|t|..] == rest;
      if |tokens| > 1 {
        assert rest[0] == ' ' && rest[1..] == Join(" ", tokens[1..]);
        assert forall u :: u in tokens[1..] ==> u in tokens;
        SplitJoinRoundTrip(tokens[1..]);
        assert SplitOnSpace(rest) == tokens[1..];
      }
      assert [t] + tokens[1..] == tokens;
    }
  }

  lemma {:induction false} TokenLengthOfToken(t: string, rest: string)
    requires ' ' !in t
    requires rest == [] || rest[0] == ' '
    ensures TokenLength(t + rest) == |t|
  {
    if t != [] {
      assert (t + rest)[1..] == t[1..] + rest;
      assert t[0] in t;
      TokenLengthOfToken(t[1..], rest);
    }
  }

  /** k spaces. */
  function Spaces(k: nat): (r: string)
    ensures |r| == k && forall i :: 0 <= i < k ==> r[i] == ' '
  {
    if k == 0 then [] else [' '] + Spaces(k - 1)
  }

  /** The tokens in order, token i followed by gaps[i] spaces. */
  function Spread(tokens: seq<string>, gaps: seq<nat>): string
    requires |gaps| == |tokens|
  {
    if tokens == [] then [] else tokens[0] + Spaces(gaps[0]) + Spread(tokens[1..], gaps[1..])
  }

  /** Consecutive tokens are separated by at least one space; only the last gap may be empty. */
  predicate Separated(gaps: seq<nat>) {
    forall i :: 0 <= i < |gaps| - 1 ==> gaps[i] >= 1
  }

  /** What Split(" ", RemoveEmptyEntries) returns: `s` is `lead` spaces followed by the tokens,
      each token followed by its gap of spaces and consecutive tokens at least one space apart. */
  lemma {:induction false} SplitOnSpaceLayout(s: string) returns (lead: nat, gaps: seq<nat>)
    ensures |gaps| == |SplitOnSpace(s)| && Separated(gaps)
    ensures s == Spaces(lead) + Spread(SplitOnSpace(s), gaps)
    decreases |s|
  {
    if s == [] {
      lead, gaps := 0, [];
    } else if s[0] == ' ' {
      var l, g := SplitOnSpaceLayout(s[1..]);
      lead, gaps := l + 1, g;
      assert Spaces(l + 1) == [' '] + Spaces(l);
      assert s == [s[0]] + s[1..];
    } else {
      var n := TokenLength(s);
      var rest := s[n..];
      var l, g := SplitOnSpaceLayout(rest);
      var tokens := SplitOnSpace(s);
      assert tokens == [s[..n]] + SplitOnSpace(rest);
      assert tokens[1..] == SplitOnSpace(rest);
      lead, gaps := 0, [l] + g;
      assert gaps[1..] == g;
      if SplitOnSpace(rest) != [] {
        assert rest != [] && rest[0] == ' ';
        var ts := SplitOnSpace(rest);
        assert ts[0] in ts;
        assert Spread(ts, g)[0] == ts[0][0];
        assert ts[0][0] != ' ';
        assert (Spaces(l) + Spread(ts, g))[0] == ' ';
        assert l >= 1;
      }
      assert Spread(tokens, gaps) == s[..n] + Spaces(l) + Spread(SplitOnSpace(rest), g);
      assert s == s[..n] + rest;
    }
  }

  /** Conversely, the tokens of any such layout are exactly what the split returns: every run of
      spaces, before, between or after the tokens, is dropped, and other white space stays in its token. */
  lemma {:induction false} SplitOnSpaceOfSpread(lead: nat, tokens: seq<string>, gaps: seq<nat>)
    requires |gaps| == |tokens| && Separated(gaps)
    requires forall t :: t in tokens ==> t != [] && ' ' !in t
    ensures SplitOnSpace(Spaces(lead) + Spread(tokens, gaps)) == tokens
    decreases |tokens|, lead
  {
    var s := Spaces(lead) + Spread(tokens, gaps);
    if lead > 0 {
      assert Spaces(lead) == [' '] + Spaces(lead - 1);
      assert s[1..] == Spaces(lead - 1) + Spread(tokens, gaps);
      SplitOnSpaceOfSpread(lead - 1, tokens, gaps);
    } else if tokens != [] {
      var t := tokens[0];
      assert t in tokens;
      var rest := Spaces(gaps[0]) + Spread(tokens[1..], gaps[1..]);
      assert s == t + rest;
      if gaps[0] == 0 {
        assert |tokens| == 1;
        assert rest == [];
      }
      TokenLengthOfToken(t, rest);
      assert s[..|t|] == t && s[|t|..] == rest;
      assert forall u :: u in tokens[1..] ==> u in tokens;
      assert Separated(gaps[1..]);
      SplitOnSpaceOfSpread(gaps[0], tokens[1..], gaps[1..]);
      assert [t] + tokens[1..] == tokens;
    }
  }

  // ---------------------------------------------------------------------------
  // Decimal digits

  predicate IsAsciiDigit(c: char) {
    '0' <= c <= '9'
  }

  predicate AllDigits(s: string) {
    forall k :: 0 <= k < |s| ==> IsAsciiDigit(s[k])
  }

  /** The value of a string of decimal digits, most significant first. */
  function DigitsValue(s: string): nat
    requires AllDigits(s)
  {
    if s == [] then 0 else DigitsValue(s[..|s| - 1]) * 10 + (s[|s| - 1] - '0') as int
  }

  function DigitChar(d: nat): (c: char)
    requires d < 10
    ensures IsAsciiDigit(c) && (c - '0') as int == d
  {
    ('0' as int + d) as char
  }

  /** The shortest decimal rendering of `n`. */
  function NatToDigits(n: nat): (s: string)
    ensures s != [] && AllDigits(s)
    ensures |s| > 1 ==> s[0] != '0'
  {
    if n < 10 then [DigitChar(n)] else NatToDigits(n / 10) + [DigitChar(n % 10)]
  }

  /** Reading back a rendering gives the number rendered. */
  lemma {:induction false} NatToDigitsRoundTrip(n: nat)
    ensures DigitsValue(NatToDigits(n)) == n
  {
    if n >= 10 {
      var s := NatToDigits(n);
      NatToDigitsRoundTrip(n / 10);
      assert s[..|s| - 1] == NatToDigits(n / 10);
    }
  }

  /** The digits of `n` left-padded with '0' to at least `width` characters. */
  function PadDigits(n: nat, width: nat): (s: string)
    ensures AllDigits(s) && |s| >= width
  {
    var d := NatToDigits(n);
    if |d| >= width then d else seq(width - |d|, _ => '0') + d
  }

  /** Leading zeros do not change a value. */
  lemma {:induction false} DigitsValueLeadingZeros(z: nat, d: string)
    requires AllDigits(d)
    ensures AllDigits(seq(z, _ => '0') + d)
    ensures DigitsValue(seq(z, _ => '0') + d) == DigitsValue(d)
  {
    var s := seq(z, _ => '0') + d;
    if d == [] {
      assert s == seq(z, _ => '0');
      AllZerosValue(z);
    } else {
      var d' := d[..|d| - 1];
      assert s[..|s| - 1] == seq(z, _ => '0') + d';
      DigitsValueLeadingZeros(z, d');
    }
  }

  lemma {:induction false} AllZerosValue(z: nat)
    ensures AllDigits(seq(z, _ => '0'))
    ensures DigitsValue(seq(z, _ => '0')) == 0
  {
    if z > 0 {
      var s := seq(z, _ => '0');
      assert s[..z - 1] == seq(z - 1, _ => '0');
      AllZerosValue(z - 1);
    }
  }

  /** A number below 10^width pads to exactly `width` digits that read back as the number. */
  lemma PadDigitsExact(n: nat, width: nat)
    requires width >= 1 && n < Pow10(width)
    ensures |PadDigits(n, width)| == width
    ensures DigitsValue(PadDigits(n, width)) == n
  {
    var d := NatToDigits(n);
    NatToDigitsLength(n, width);
    NatToDigitsRoundTrip(n);
    if |d| < width {
      DigitsValueLeadingZeros(width - |d|, d);
    }
  }

  function Pow10(k: nat): (p: nat)
    ensures p >= 1
  {
    if k == 0 then 1 else 10 * Pow10(k - 1)
  }

  lemma {:induction false} NatToDigitsLength(n: nat, width: nat)
    requires width >= 1 && n < Pow10(width)
    ensures |NatToDigits(n)| <= width
  {
    if n >= 10 {
      assert width >= 2;
      NatToDigitsLength(n / 10, width - 1);
    }
  }

  // ---------------------------------------------------------------------------
  // Int32.TryParse(s) with NumberStyles.Integer, signs written as the ASCII "-" and "+"

  const INT32_MIN: int := -0x8000_0000
  const INT32_MAX: int := 0x7FFF_FFFF

  /** The values of a C# `int`. */
  type Int32 = x: int | INT32_MIN <= x <= INT32_MAX

  /** The leading and trailing white space NumberStyles.Integer allows: U+0009 to U+000D and U+0020. */
  predicate IsNumberWhite(c: char) {
    c == ' ' || ('\t' <= c <= '\r')
  }

  /** The first index at or after i that does not hold number white space, or |s|. */
  function SkipWhiteForward(s: string, i: nat): (j: nat)
    requires i <= |s|
    ensures i <= j <= |s|
    decreases |s| - i
  {
    if i == |s| || !IsNumberWhite(s[i]) then i else SkipWhiteForward(s, i + 1)
  }

  /** SkipWhiteForward passes over white space only and stops at the first other character. */
  lemma {:induction false} SkipWhiteForwardStops(s: string, i: nat)
    requires i <= |s|
    ensures var j := SkipWhiteForward(s, i);
      && (forall k :: i <= k < j ==> IsNumberWhite(s[k]))
      && (j < |s| ==> !IsNumberWhite(s[j]))
    decreases |s| - i
  {
    if i < |s| && IsNumberWhite(s[i]) {
      SkipWhiteForwardStops(s, i + 1);
    }
  }

  /** The least index i <= j such that s[i..j] is all number white space. */
  function SkipWhiteBackward(s: string, j: nat): (i: nat)
    requires j <= |s|
    ensures i <= j
  {
    if j == 0 || !IsNumberWhite(s[j - 1]) then j else SkipWhiteBackward(s, j - 1)
  }

  /** SkipWhiteBackward passes over white space only and stops after the last other character. */
  lemma {:induction false} SkipWhiteBackwardStops(s: string, j: nat)
    requires j <= |s|
    ensures var i := SkipWhiteBackward(s, j);
      && (forall k :: i <= k < j ==> IsNumberWhite(s[k]))
      && (i > 0 ==> !IsNumberWhite(s[i - 1]))
  {
    if j > 0 && IsNumberWhite(s[j - 1]) {
      SkipWhiteBackwardStops(s, j - 1);
    }
  }

  /** The value of s[lo..hi] read as decimal digits, most significant first; None if one of
      its characters is not a digit. */
  function ValueBetween(s: string, lo: nat, hi: nat): Option<nat>
    requires lo <= hi <= |s|
    decreases hi - lo
  {
    if lo == hi then Some(0)
    else if !IsAsciiDigit(s[hi - 1]) then None
    else match ValueBetween(s, lo, hi - 1)
      case None => None
      case Some(v) => Some(v * 10 + (s[hi - 1] - '0') as int)
  }

  /** ValueBetween succeeds exactly on digits, and then agrees with DigitsValue. */
  lemma {:induction false} ValueBetweenIsDigitsValue(s: string, lo: nat, hi: nat)
    requires lo <= hi <= |s|
    ensures ValueBetween(s, lo, hi).Some? <==> AllDigits(s[lo..hi])
    ensures ValueBetween(s, lo, hi).Some? ==> ValueBetween(s, lo, hi).value == DigitsValue(s[lo..hi])
    decreases hi - lo
  {
    if lo < hi {
      ValueBetweenIsDigitsValue(s, lo, hi - 1);
      var d := s[lo..hi];
      assert d[..|d| - 1] == s[lo..hi - 1];
      assert d[|d| - 1] == s[hi - 1];
      if !AllDigits(s[lo..hi - 1]) {
        var k :| 0 <= k < |d| - 1 && !IsAsciiDigit(d[..|d| - 1][k]);
        assert !IsAsciiDigit(d[k]);
      }
    }
  }

  /** A magnitude, or None for text that was not digits, with a minus sign applied if
      `negative`; None unless the value fits in 32 bits. */
  function Signed(negative: bool, magnitude: Option<nat>): (r: Option<Int32>)
    ensures magnitude.None? ==> r.None?
    ensures r.Some? ==> r.value == if negative then -(magnitude.value as int) else magnitude.value
  {
    match magnitude
    case None => None
    case Some(m) =>
      var v: int := if negative then -(m as int) else m;
      if INT32_MIN <= v <= INT32_MAX then Some(v) else None
  }

  /** The digits s[lo..hi] with an optional minus sign, if there is at least one digit. */
  function SignedValueBetween(negative: bool, s: string, lo: nat, hi: nat): Option<Int32>
    requires lo <= hi <= |s|
  {
    if lo == hi then None else Signed(negative, ValueBetween(s, lo, hi))
  }

  /** The NumberStyles.Integer reading of s, stated on positions: leading white space up to
      `lo`, trailing white space from `hi`, and between them an optional '+' or '-' followed by
      one or more ASCII digits whose value is within the 32-bit range. */
  function Int32Reading(s: string): Option<Int32>
  {
    var lo := SkipWhiteForward(s, 0);
    var hi := SkipWhiteBackward(s, |s|);
    if hi <= lo then None
    else if s[lo] == '-' || s[lo] == '+' then SignedValueBetween(s[lo] == '-', s, lo + 1, hi)
    else SignedValueBetween(false, s, lo, hi)
  }

  /** Where the scanner of Int32.TryParse is: before the number, just after its sign, inside
      its digits with the magnitude read so far, or in the white space after it. */
  datatype ScanState = Leading | AfterSign(negative: bool) | InDigits(negative: bool, magnitude: nat)
                     | Trailing(negative: bool, magnitude: nat)

  /** Scans s from position i, one character at a time, in state `state`. */
  function Scan(s: string, i: nat, state: ScanState): Option<Int32>
    requires i <= |s|
    decreases |s| - i
  {
    if i == |s| then
      match state
      case InDigits(negative, m) => Signed(negative, Some(m))
      case Trailing(negative, m) => Signed(negative, Some(m))
      case _ => None
    else
      var c := s[i];
      match state
      case Leading =>
        if IsNumberWhite(c) then Scan(s, i + 1, Leading)
        else if c == '-' || c == '+' then Scan(s, i + 1, AfterSign(c == '-'))
        else if IsAsciiDigit(c) then Scan(s, i + 1, InDigits(false, (c - '0') as int))
        else None
      case AfterSign(negative) =>
        if IsAsciiDigit(c) then Scan(s, i + 1, InDigits(negative, (c - '0') as int)) else None
      case InDigits(negative, m) =>
        if IsAsciiDigit(c) then Scan(s, i + 1, InDigits(negative, m * 10 + (c - '0') as int))
        else if IsNumberWhite(c) then Scan(s, i + 1, Trailing(negative, m))
        else None
      case Trailing(negative, m) =>
        if IsNumberWhite(c) then Scan(s, i + 1, Trailing(negative, m)) else None
  }

  /** Int32.TryParse(s, out v): Some(v) when it returns true, None when it returns false. */
  function TryParseInt32(s: string): Option<Int32>
  {
    Scan(s, 0, Leading)
  }

  /** The scanner computes the positional reading, on every string. */
  lemma TryParseInt32IsInt32Reading(s: string)
    ensures TryParseInt32(s) == Int32Reading(s)
  {
    var lo := SkipWhiteForward(s, 0);
    var hi := SkipWhiteBackward(s, |s|);
    SkipWhiteForwardStops(s, 0);
    SkipWhiteBackwardStops(s, |s|);
    ScanLeading(s, 0, lo);
    if lo < |s| {
      NonWhiteBeforeEnd(s, lo);
      var c := s[lo];
      if c == '-' || c == '+' {
        ScanAfterSign(s, lo + 1, c == '-');
      } else if IsAsciiDigit(c) {
        assert ValueBetween(s, lo, lo + 1) == Some((c - '0') as int);
        ScanDigits(s, lo, lo + 1, false, (c - '0') as int);
      } else {
        ValueBetweenStopsAt(s, lo, hi, lo);
      }
    }
  }

  /** A character that is not white space lies before the trailing white space. */
  lemma NonWhiteBeforeEnd(s: string, k: nat)
    requires k < |s| && !IsNumberWhite(s[k])
    ensures k < SkipWhiteBackward(s, |s|)
  {
    SkipWhiteBackwardStops(s, |s|);
  }

  /** A non-digit at position k makes every range containing it fail to read. */
  lemma {:induction false} ValueBetweenStopsAt(s: string, lo: nat, hi: nat, k: nat)
    requires lo <= k < hi <= |s| && !IsAsciiDigit(s[k])
    ensures ValueBetween(s, lo, hi) == None
    decreases hi - lo
  {
    if k < hi - 1 {
      ValueBetweenStopsAt(s, lo, hi - 1, k);
    }
  }

  /** The leading white space is skipped. */
  lemma {:induction false} ScanLeading(s: string, i: nat, lo: nat)
    requires i <= lo == SkipWhiteForward(s, 0)
    requires forall k :: 0 <= k < lo ==> IsNumberWhite(s[k])
    ensures Scan(s, i, Leading) == Scan(s, lo, Leading)
    decreases lo - i
  {
    if i < lo {
      ScanLeading(s, i + 1, lo);
    }
  }

  /** After the sign, the digits up to the trailing white space are read. */
  lemma ScanAfterSign(s: string, i: nat, negative: bool)
    requires i <= SkipWhiteBackward(s, |s|)
    ensures Scan(s, i, AfterSign(negative)) == SignedValueBetween(negative, s, i, SkipWhiteBackward(s, |s|))
  {
    var hi := SkipWhiteBackward(s, |s|);
    if i < hi {
      var c := s[i];
      if IsAsciiDigit(c) {
        NonWhiteBeforeEnd(s, i);
        assert ValueBetween(s, i, i + 1) == Some((c - '0') as int);
        ScanDigits(s, i, i + 1, negative, (c - '0') as int);
      } else {
        ValueBetweenStopsAt(s, i, hi, i);
      }
    } else if i < |s| {
      SkipWhiteBackwardStops(s, |s|);
      assert IsNumberWhite(s[i]);
    }
  }

  /** Inside the digits begun at `start`, the scan reads the digits up to the trailing white
      space, or fails where that range holds a non-digit. */
  lemma {:induction false} ScanDigits(s: string, start: nat, i: nat, negative: bool, m: nat)
    requires start < i <= SkipWhiteBackward(s, |s|) && ValueBetween(s, start, i) == Some(m)
    ensures Scan(s, i, InDigits(negative, m)) == Signed(negative, ValueBetween(s, start, SkipWhiteBackward(s, |s|)))
    decreases |s| - i
  {
    var hi := SkipWhiteBackward(s, |s|);
    if i < |s| {
      var c := s[i];
      if IsAsciiDigit(c) {
        NonWhiteBeforeEnd(s, i);
        ScanDigits(s, start, i + 1, negative, m * 10 + (c - '0') as int);
      } else if IsNumberWhite(c) {
        ScanTrailing(s, i + 1, negative, m);
        if i < hi {
          ValueBetweenStopsAt(s, start, hi, i);
          SkipWhiteBackwardStops(s, |s|);
          assert hi != i + 1;
        }
      } else {
        NonWhiteBeforeEnd(s, i);
        ValueBetweenStopsAt(s, start, hi, i);
      }
    }
  }

  /** The trailing white space is skipped, and anything else after the digits fails. */
  lemma {:induction false} ScanTrailing(s: string, i: nat, negative: bool, m: nat)
    requires i <= |s|
    ensures Scan(s, i, Trailing(negative, m)) ==
              if SkipWhiteBackward(s, |s|) <= i then Signed(negative, Some(m)) else None
    decreases |s| - i
  {
    if i < |s| {
      var c := s[i];
      SkipWhiteBackwardStops(s, |s|);
      if IsNumberWhite(c) {
        ScanTrailing(s, i + 1, negative, m);
        assert SkipWhiteBackward(s, |s|) != i + 1;
      } else {
        NonWhiteBeforeEnd(s, i);
      }
    }
  }

  /** The decimal rendering of an Int32, a minus sign before the digits of a negative value. */
  function Int32Text(n: int): string
    requires INT32_MIN <= n <= INT32_MAX
  {
    if n < 0 then "-" + NatToDigits(-n) else NatToDigits(n)
  }

  /** TryParse reads back every decimal rendering of a 32-bit value. */
  lemma TryParseInt32RoundTrip(n: int)
    requires INT32_MIN <= n <= INT32_MAX
    ensures TryParseInt32(if n < 0 then "-" + NatToDigits(-n) else NatToDigits(n)) == Some(n)
  {
    var d := NatToDigits(if n < 0 then -n else n);
    NatToDigitsRoundTrip(if n < 0 then -n else n);
    var s := if n < 0 then "-" + d else d;
    TryParseInt32IsInt32Reading(s);
    assert !IsNumberWhite(s[0]) && !IsNumberWhite(s[|s| - 1]);
    assert SkipWhiteForward(s, 0) == 0 && SkipWhiteBackward(s, |s|) == |s|;
    var lo := if n < 0 then 1 else 0;
    assert s[lo..|s|] == d;
    ValueBetweenIsDigitsValue(s, lo, |s|);
  }

  /** TryParse rejects text containing no digit. */
  lemma TryParseInt32NeedsADigit(s: string)
    requires forall k :: 0 <= k < |s| ==> !IsAsciiDigit(s[k])
    ensures TryParseInt32(s) == None
  {
    TryParseInt32IsInt32Reading(s);
    var lo := SkipWhiteForward(s, 0);
    var hi := SkipWhiteBackward(s, |s|);
    if lo < hi {
      ValueBetweenIsDigitsValue(s, lo, hi);
      assert !IsAsciiDigit(s[lo..hi][0]);
      if lo + 1 < hi {
        ValueBetweenIsDigitsValue(s, lo + 1, hi);
        assert !IsAsciiDigit(s[lo + 1..hi][0]);
      }
    }
  }

  // ---------------------------------------------------------------------------
  // The regular expression ^\d+$

  /** The characters \d matches in a .NET regular expression without RegexOptions.ECMAScript:
      the Unicode decimal digits (general category Nd) that fit in one UTF-16 code unit, ten
      consecutive code points per script. */
  predicate IsRegexDigit(c: char) {
    || ('0' <= c <= '9') || ('\U{0660}' <= c <= '\U{0669}') || ('\U{06F0}' <= c <= '\U{06F9}')
    || ('\U{07C0}' <= c <= '\U{07C9}') || ('\U{0966}' <= c <= '\U{096F}') || ('\U{09E6}' <= c <= '\U{09EF}')
    || ('\U{0A66}' <= c <= '\U{0A6F}') || ('\U{0AE6}' <= c <= '\U{0AEF}') || ('\U{0B66}' <= c <= '\U{0B6F}')
    || ('\U{0BE6}' <= c <= '\U{0BEF}') || ('\U{0C66}' <= c <= '\U{0C6F}') || ('\U{0CE6}' <= c <= '\U{0CEF}')
    || ('\U{0D66}' <= c <= '\U{0D6F}') || ('\U{0DE6}' <= c <= '\U{0DEF}') || ('\U{0E50}' <= c <= '\U{0E59}')
    || ('\U{0ED0}' <= c <= '\U{0ED9}') || ('\U{0F20}' <= c <= '\U{0F29}') || ('\U{1040}' <= c <= '\U{1049}')
    || ('\U{1090}' <= c <= '\U{1099}') || ('\U{17E0}' <= c <= '\U{17E9}') || ('\U{1810}' <= c <= '\U{1819}')
    || ('\U{1946}' <= c <= '\U{194F}') || ('\U{19D0}' <= c <= '\U{19D9}') || ('\U{1A80}' <= c <= '\U{1A89}')
    || ('\U{1A90}' <= c <= '\U{1A99}') || ('\U{1B50}' <= c <= '\U{1B59}') || ('\U{1BB0}' <= c <= '\U{1BB9}')
    || ('\U{1C40}' <= c <= '\U{1C49}') || ('\U{1C50}' <= c <= '\U{1C59}') || ('\U{A620}' <= c <= '\U{A629}')
    || ('\U{A8D0}' <= c <= '\U{A8D9}') || ('\U{A900}' <= c <= '\U{A909}') || ('\U{A9D0}' <= c <= '\U{A9D9}')
    || ('\U{A9F0}' <= c <= '\U{A9F9}') || ('\U{AA50}' <= c <= '\U{AA59}') || ('\U{ABF0}' <= c <= '\U{ABF9}')
    || ('\U{FF10}' <= c <= '\U{FF19}')
  }

  /** ^\d+$ from position i on: s[i] is a digit, and after it comes the end of s, a single
      final '\n' (where `$` also matches), or more of the same. */
  predicate DigitsPatternFrom(s: string, i: nat)
    requires i < |s|
    decreases |s| - i
  {
    && IsRegexDigit(s[i])
    && (i + 1 == |s| || (i + 2 == |s| && s[i + 1] == '\n') || DigitsPatternFrom(s, i + 1))
  }

  /** Regex("^\d+$").Match(s).Success, scanning s left to right. */
  predicate MatchesDigitsPattern(s: string) {
    s != [] && DigitsPatternFrom(s, 0)
  }

  predicate AllRegexDigits(s: string) {
    forall k :: 0 <= k < |s| ==> IsRegexDigit(s[k])
  }

  /** The language of ^\d+$ stated outright: one or more digits, optionally followed by a
      single '\n'. */
  predicate IsDigitLine(s: string) {
    || (s != [] && AllRegexDigits(s))
    || (|s| > 1 && s[|s| - 1] == '\n' && AllRegexDigits(s[..|s| - 1]))
  }

  /** The scan accepts exactly the digit lines. */
  lemma MatchesDigitsPatternIsDigitLine(s: string)
    ensures MatchesDigitsPattern(s) <==> IsDigitLine(s)
  {
    if s != [] {
      DigitsPatternFromIff(s, 0);
      assert AllRegexDigits(s) <==> forall k :: 0 <= k < |s| ==> IsRegexDigit(s[k]);
      if |s| > 1 {
        var body := s[..|s| - 1];
        assert AllRegexDigits(body) <==> forall k :: 0 <= k < |s| - 1 ==> IsRegexDigit(s[k]) by {
          assert forall k :: 0 <= k < |body| ==> body[k] == s[k];
        }
      }
    }
  }

  lemma {:induction false} DigitsPatternFromIff(s: string, i: nat)
    requires i < |s|
    ensures DigitsPatternFrom(s, i) <==>
              || (forall k :: i <= k < |s| ==> IsRegexDigit(s[k]))
              || (i < |s| - 1 && s[|s| - 1] == '\n' && forall k :: i <= k < |s| - 1 ==> IsRegexDigit(s[k]))
    decreases |s| - i
  {
    assert !IsRegexDigit('\n');
    if i + 1 < |s| {
      DigitsPatternFromIff(s, i + 1);
    }
  }

  /** The characters of a matching string other than its optional final newline. */
  function PatternBody(s: string): (d: string)
    requires MatchesDigitsPattern(s)
    ensures d != [] && AllRegexDigits(d) && (s == d || s == d + "\n")
  {
    MatchesDigitsPatternIsDigitLine(s);
    if s[|s| - 1] == '\n' then s[..|s| - 1] else s
  }

  /** Int32.Parse on a string that matched ^\d+$ succeeds exactly when the digits are ASCII
      and their value fits in 32 bits, and then returns that value: a match in another script
      makes it throw FormatException, a long one OverflowException. */
  lemma ParseOfDigitsPattern(s: string)
    requires MatchesDigitsPattern(s)
    ensures var d := PatternBody(s);
            TryParseInt32(s) == if AllDigits(d) && DigitsValue(d) <= INT32_MAX then Some(DigitsValue(d)) else None
  {
    var d := PatternBody(s);
    TryParseInt32IsInt32Reading(s);
    assert s[..|d|] == d;
    assert IsRegexDigit(s[0]) && IsRegexDigit(s[|d| - 1]);
    assert SkipWhiteForward(s, 0) == 0;
    assert SkipWhiteBackward(s, |s|) == |d|;
    ValueBetweenIsDigitsValue(s, 0, |d|);
  }

  // ---------------------------------------------------------------------------
  // Unchecked 32-bit arithmetic

  /** The value C# stores for `x` in an `int` without overflow checking (two's complement). */
  function Wrap32(x: int): (r: int)
    ensures INT32_MIN <= r <= INT32_MAX
    ensures (r - x) % 0x1_0000_0000 == 0
    ensures INT32_MIN <= x <= INT32_MAX ==> r == x
  {
    (x - INT32_MIN) % 0x1_0000_0000 + INT32_MIN
  }
}
