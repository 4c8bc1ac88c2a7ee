/** "HH:MM" time labels and minutes since midnight.

    A label is read as `h * 60 + m` from its two two-digit fields, with no
    range check on either field (so "25:00" reads as 1500 and "09:75" as
    615), and a minute count is written back as zero-padded hours and
    minutes. A string that is not two digits, a colon and two digits reads
    as `None`, which stands for the NaN the original arithmetic produces. */
module Clock {
  import opened Types

  predicate IsDigit(c: char) {
    '0' <= c <= '9'
  }

  function DigitValue(c: char): (v: nat)
    requires IsDigit(c)
    ensures v < 10
  {
    c as int - '0' as int
  }

  function DigitChar(v: nat): (c: char)
    requires v < 10
    ensures IsDigit(c) && DigitValue(c) == v
  {
    ('0' as int + v) as char
  }

  /** Decimal notation of `n`, without leading zeros. */
  function DecimalString(n: nat): (s: string)
    ensures |s| >= 1
    ensures forall k :: 0 <= k < |s| ==> IsDigit(s[k])
  {
    if n < 10 then [DigitChar(n)] else DecimalString(n / 10) + [DigitChar(n % 10)]
  }

  /** Decimal notation left-padded with '0' to at least two characters. */
  function Pad2(n: nat): string {
    var s := DecimalString(n);
    if |s| < 2 then "0" + s else s
  }

  /** Below 100, `Pad2` writes exactly the tens digit and the units digit. */
  lemma Pad2Digits(n: nat)
    requires n < 100
    ensures Pad2(n) == [DigitChar(n / 10), DigitChar(n % 10)]
  {
    if n >= 10 {
      assert DecimalString(n / 10) == [DigitChar(n / 10)];
    }
  }

  /** The label of a minute count: hours, then minutes, each zero-padded. */
  function FormatHM(minutes: nat): string {
    Pad2(minutes / 60) + ":" + Pad2(minutes % 60)
  }

  /** Whether `s` has the shape "DD:DD". */
  predicate IsLabel(s: string) {
    |s| == 5 && IsDigit(s[0]) && IsDigit(s[1]) && s[2] == ':' && IsDigit(s[3]) && IsDigit(s[4])
  }

  /** Minutes since midnight of an "HH:MM" label, or `None` when it is not one. */
  function ParseHM(s: string): (r: Option<nat>)
    ensures r.Some? <==> IsLabel(s)
    ensures r.Some? ==> r.value < 100 * 60 + 100
  {
    if IsLabel(s) then
      Some((DigitValue(s[0]) * 10 + DigitValue(s[1])) * 60 + DigitValue(s[3]) * 10 + DigitValue(s[4]))
    else None
  }

  /** Below 100 hours every formatted label is five characters of the form
      "HH:MM" and reads back as the minute count it was written from. */
  lemma FormatParseRoundTrip(minutes: nat)
    requires minutes < 100 * 60
    ensures |FormatHM(minutes)| == 5 && IsLabel(FormatHM(minutes))
    ensures ParseHM(FormatHM(minutes)) == Some(minutes)
    ensures DigitValue(FormatHM(minutes)[3]) * 10 + DigitValue(FormatHM(minutes)[4]) == minutes % 60
  {
    var h, m := minutes / 60, minutes % 60;
    Pad2Digits(h);
    Pad2Digits(m);
    var s := FormatHM(minutes);
    assert s == [DigitChar(h / 10), DigitChar(h % 10), ':', DigitChar(m / 10), DigitChar(m % 10)];
    assert (h / 10 * 10 + h % 10) * 60 + m / 10 * 10 + m % 10 == minutes;
  }

  /** Distinct minute counts below 100 hours get distinct labels. */
  lemma FormatInjective(a: nat, b: nat)
    requires a < 100 * 60 && b < 100 * 60
    requires FormatHM(a) == FormatHM(b)
    ensures a == b
  {
    FormatParseRoundTrip(a);
    FormatParseRoundTrip(b);
  }

  /** A label whose minute field is below 60 is the formatted form of the
      minutes it reads as; this is the only way a label can be one that
      `FormatHM` produces. */
  lemma ParseFormatRoundTrip(s: string)
    requires IsLabel(s) && DigitValue(s[3]) * 10 + DigitValue(s[4]) < 60
    ensures FormatHM(ParseHM(s).value) == s
  {
    var h := DigitValue(s[0]) * 10 + DigitValue(s[1]);
    var m := DigitValue(s[3]) * 10 + DigitValue(s[4]);
    var n := ParseHM(s).value;
    assert n == h * 60 + m;
    assert n / 60 == h && n % 60 == m;
    Pad2Digits(h);
    Pad2Digits(m);
    assert DigitChar(h / 10) == s[0] && DigitChar(h % 10) == s[1];
    assert DigitChar(m / 10) == s[3] && DigitChar(m % 10) == s[4];
    assert FormatHM(n) == [s[0], s[1], ':', s[3], s[4]];
  }

  /** A string is a label `FormatHM` produces below 100 hours exactly when it
      has the "DD:DD" shape and a minute field below 60. */
  lemma FormattedLabels(s: string)
    ensures (exists n: nat :: n < 100 * 60 && FormatHM(n) == s)
        <==> (IsLabel(s) && DigitValue(s[3]) * 10 + DigitValue(s[4]) < 60)
  {
    if exists n: nat :: n < 100 * 60 && FormatHM(n) == s {
      var n: nat :| n < 100 * 60 && FormatHM(n) == s;
      FormatParseRoundTrip(n);
    }
    if IsLabel(s) && DigitValue(s[3]) * 10 + DigitValue(s[4]) < 60 {
      ParseFormatRoundTrip(s);
      assert FormatHM(ParseHM(s).value) == s;
    }
  }
}
