/**
 * The MM:SS:mmm rendering of an elapsed time in milliseconds, as handleGameOver
 * submits it and updateScoreAndTimer shows it, with a reader that inverts it.
 */
module TimeFormat {
  import opened Wrappers

  predicate IsDigit(c: char) {
    '0' <= c <= '9'
  }

  predicate AllDigits(s: string) {
    forall i | 0 <= i < |s| :: IsDigit(s[i])
  }

  function DigitChar(d: int): char
    requires 0 <= d < 10
  {
    (48 + d) as char
  }

  /** The decimal digits of n, most significant first (toString on a non-negative integer). */
  function Decimal(n: nat): (s: string)
    ensures 1 <= |s| && AllDigits(s)
    ensures n < 100 ==> |s| <= 2
    ensures n < 1000 ==> |s| <= 3
    decreases n
  {
    if n < 10 then [DigitChar(n)] else Decimal(n / 10) + [DigitChar(n % 10)]
  }

  /** padStart(width, c): s preceded by as many copies of c as it falls short of width. */
  function PadStart(s: string, width: nat, c: char): (r: string)
    ensures |r| == if |s| >= width then |s| else width
  {
    if |s| >= width then s else seq(width - |s|, _ => c) + s
  }

  /** padStart keeps s at the end and puts only the fill character in front of it. */
  lemma PadStartSpec(s: string, width: nat, c: char)
    ensures var r := PadStart(s, width, c);
      && r[|r| - |s|..] == s
      && forall i | 0 <= i < |r| - |s| :: r[i] == c
  {
  }

  /** One zero-padded field. */
  function Field(n: nat, width: nat): string {
    PadStart(Decimal(n), width, '0')
  }

  /** A zero-padded run of digits is still a run of digits. */
  lemma PadDigits(s: string, width: nat)
    requires AllDigits(s)
    ensures AllDigits(PadStart(s, width, '0'))
  {
    var r := PadStart(s, width, '0');
    forall i | |r| - |s| <= i < |r| ensures IsDigit(r[i]) {
      assert r[i] == r[|r| - |s|..][i - (|r| - |s|)];
    }
  }

  /** The layout of the three fields joined by ':' when the last two have widths 2 and 3. */
  lemma JoinLayout(a: string, b: string, c: string)
    requires |b| == 2 && |c| == 3
    ensures var s := a + ":" + b + ":" + c;
      |s| == |a| + 7 && s[..|s| - 7] == a && s[|s| - 7] == ':' &&
      s[|s| - 6..|s| - 4] == b && s[|s| - 4] == ':' && s[|s| - 3..] == c
  {
  }

  /** The three fields of an elapsed time; seconds stay below 60 and milliseconds below 1000. */
  lemma SplitTime(elapsed: nat)
    ensures (elapsed % 60000) / 1000 < 60 && elapsed % 1000 < 1000
    ensures elapsed == (elapsed / 60000) * 60000 + ((elapsed % 60000) / 1000) * 1000 + elapsed % 1000
    ensures elapsed < 100 * 60000 ==> elapsed / 60000 < 100
  {
    var m, r := elapsed / 60000, elapsed % 60000;
    assert elapsed == 60000 * m + r && 0 <= r < 60000;
    var sec, ms := r / 1000, r % 1000;
    assert r == 1000 * sec + ms && 0 <= ms < 1000;
    assert elapsed == 1000 * (60 * m + sec) + ms;
    assert elapsed % 1000 == ms;
  }

  /**
   * Minutes, seconds and milliseconds, zero-padded to 2, 2 and 3 digits and joined by ':'
   * (see FormatTimeShape).
   */
  function FormatTime(elapsed: nat): string {
    Field(elapsed / 60000, 2) + ":" + Field((elapsed % 60000) / 1000, 2) + ":" + Field(elapsed % 1000, 3)
  }

  /**
   * A formatted time is digits, ':', two digits, ':', three digits; the minutes field grows
   * past two digits only after 99 minutes.
   */
  lemma FormatTimeShape(elapsed: nat)
    ensures |FormatTime(elapsed)| >= 9
    ensures var s := FormatTime(elapsed); AllDigits(s[..|s| - 7]) && s[|s| - 7] == ':'
    ensures var s := FormatTime(elapsed); AllDigits(s[|s| - 6..|s| - 4]) && s[|s| - 4] == ':'
    ensures var s := FormatTime(elapsed); AllDigits(s[|s| - 3..])
    ensures elapsed < 100 * 60000 ==> |FormatTime(elapsed)| == 9
  {
    SplitTime(elapsed);
    FieldsShape(elapsed / 60000, (elapsed % 60000) / 1000, elapsed % 1000);
  }

  /** The shape of the three fields of a time, formatted and joined. */
  lemma FieldsShape(m: nat, sec: nat, ms: nat)
    requires sec < 60 && ms < 1000
    ensures var s := Field(m, 2) + ":" + Field(sec, 2) + ":" + Field(ms, 3);
      && |s| >= 9 && AllDigits(s[..|s| - 7]) && s[|s| - 7] == ':'
      && AllDigits(s[|s| - 6..|s| - 4]) && s[|s| - 4] == ':' && AllDigits(s[|s| - 3..])
      && (m < 100 ==> |s| == 9)
  {
    PadDigits(Decimal(m), 2);
    PadDigits(Decimal(sec), 2);
    PadDigits(Decimal(ms), 3);
    FieldWidths(m, sec, ms);
    JoinShape(Field(m, 2), Field(sec, 2), Field(ms, 3));
  }

  /** Three digit fields of widths at least 2, exactly 2 and exactly 3, joined by ':'. */
  lemma JoinShape(a: string, b: string, c: string)
    requires |a| >= 2 && |b| == 2 && |c| == 3 && AllDigits(a) && AllDigits(b) && AllDigits(c)
    ensures var s := a + ":" + b + ":" + c;
      && |s| >= 9 && AllDigits(s[..|s| - 7]) && s[|s| - 7] == ':'
      && AllDigits(s[|s| - 6..|s| - 4]) && s[|s| - 4] == ':' && AllDigits(s[|s| - 3..])
      && (|a| == 2 ==> |s| == 9)
  {
    JoinLayout(a, b, c);
  }

  /** The number a string of decimal digits denotes; leading zeros are allowed. */
  function DigitsValue(s: string): nat
    requires AllDigits(s)
  {
    if s == [] then 0
    else DigitsValue(s[..|s| - 1]) * 10 + (s[|s| - 1] as int - 48)
  }

  /** The weighted sum of three digit fields; None when one of them is not all digits. */
  function ReadFields(minutes: string, seconds: string, millis: string): Option<nat> {
    if AllDigits(minutes) && AllDigits(seconds) && AllDigits(millis) then
      Some(DigitsValue(minutes) * 60000 + DigitsValue(seconds) * 1000 + DigitsValue(millis))
    else None
  }

  /** Reads MM:SS:mmm back into milliseconds; None when the shape is wrong. */
  function ParseTime(s: string): Option<nat> {
    if |s| >= 9 && s[|s| - 7] == ':' && s[|s| - 4] == ':' then
      ReadFields(s[..|s| - 7], s[|s| - 6..|s| - 4], s[|s| - 3..])
    else None
  }

  lemma {:induction false} DecimalValue(n: nat)
    ensures DigitsValue(Decimal(n)) == n
    decreases n
  {
    var s := Decimal(n);
    if n >= 10 {
      DecimalValue(n / 10);
      assert s[..|s| - 1] == Decimal(n / 10);
    }
  }

  lemma {:induction false} ZerosValue(k: nat)
    ensures AllDigits(seq(k, _ => '0')) && DigitsValue(seq(k, _ => '0')) == 0
  {
    if k > 0 {
      ZerosValue(k - 1);
      assert seq(k, _ => '0')[..k - 1] == seq(k - 1, _ => '0');
    }
  }

  /** Leading zeros do not change the value. */
  lemma {:induction false} LeadingZerosValue(k: nat, s: string)
    requires AllDigits(s)
    ensures AllDigits(seq(k, _ => '0') + s) && DigitsValue(seq(k, _ => '0') + s) == DigitsValue(s)
    decreases |s|
  {
    var z := seq(k, _ => '0');
    ZerosValue(k);
    if s == [] {
      assert z + s == z;
    } else {
      LeadingZerosValue(k, s[..|s| - 1]);
      assert (z + s)[..|z + s| - 1] == z + s[..|s| - 1];
    }
  }

  lemma {:induction false} FieldValue(n: nat, width: nat)
    ensures AllDigits(Field(n, width)) && DigitsValue(Field(n, width)) == n
  {
    var d := Decimal(n);
    DecimalValue(n);
    if |d| < width {
      LeadingZerosValue(width - |d|, d);
    }
  }

  /** Three fields of digits read as their weighted sum. */
  lemma ReadDigitFields(a: string, b: string, c: string)
    requires AllDigits(a) && AllDigits(b) && AllDigits(c)
    ensures ReadFields(a, b, c) == Some(DigitsValue(a) * 60000 + DigitsValue(b) * 1000 + DigitsValue(c))
  {
  }

  /** Parsing three fields joined by ':' reads back exactly those fields. */
  lemma ParseSplits(a: string, b: string, c: string)
    requires |a| >= 2 && |b| == 2 && |c| == 3
    ensures ParseTime(a + ":" + b + ":" + c) == ReadFields(a, b, c)
  {
    JoinLayout(a, b, c);
  }

  /** Reading three joined digit fields gives their weighted sum. */
  lemma ParseJoined(a: string, b: string, c: string, m: nat, sec: nat, ms: nat)
    requires |a| >= 2 && |b| == 2 && |c| == 3 && AllDigits(a) && AllDigits(b) && AllDigits(c)
    requires DigitsValue(a) == m && DigitsValue(b) == sec && DigitsValue(c) == ms
    ensures ParseTime(a + ":" + b + ":" + c) == Some(m * 60000 + sec * 1000 + ms)
  {
    ParseSplits(a, b, c);
    ReadDigitFields(a, b, c);
  }

  /** The seconds and milliseconds fields have their full widths; the minutes field at least 2. */
  lemma FieldWidths(m: nat, sec: nat, ms: nat)
    requires sec < 60 && ms < 1000
    ensures |Field(m, 2)| >= 2 && |Field(sec, 2)| == 2 && |Field(ms, 3)| == 3
  {
  }

  /** Three fields formatted at widths 2, 2 and 3 and joined by ':' read back as their weighted sum. */
  lemma FieldsRoundTrip(m: nat, sec: nat, ms: nat)
    requires sec < 60 && ms < 1000
    ensures ParseTime(Field(m, 2) + ":" + Field(sec, 2) + ":" + Field(ms, 3)) == Some(m * 60000 + sec * 1000 + ms)
  {
    FieldWidths(m, sec, ms);
    FieldValue(m, 2);
    FieldValue(sec, 2);
    FieldValue(ms, 3);
    ParseJoined(Field(m, 2), Field(sec, 2), Field(ms, 3), m, sec, ms);
  }

  /** Reading a formatted time gives back the elapsed milliseconds, so the format loses nothing. */
  lemma FormatTimeRoundTrip(elapsed: nat)
    ensures ParseTime(FormatTime(elapsed)) == Some(elapsed)
  {
    SplitTime(elapsed);
    FieldsRoundTrip(elapsed / 60000, (elapsed % 60000) / 1000, elapsed % 1000);
  }

  /** Different elapsed times are never shown the same way. */
  lemma FormatTimeInjective(a: nat, b: nat)
    requires FormatTime(a) == FormatTime(b)
    ensures a == b
  {
    FormatTimeRoundTrip(a);
    FormatTimeRoundTrip(b);
  }
}
