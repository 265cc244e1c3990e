/** `formatTimer(secs)` of `src/lib/formatter.ts`: a number of seconds
    shown as hours, minutes and seconds, `h:mm:ss`. */
module Formatter {
  import opened Lists
  import opened Utils

  function DigitChar(d: nat): (c: char)
    requires d < 10
    ensures '0' <= c <= '9' && c as int - '0' as int == d
  {
    ('0' as int + d) as char
  }

  /** `n.toString()`: the decimal digits of `n`, without leading zeros. */
  function NatString(n: nat): (s: string)
    ensures IsDecimal(s) && DecimalValue(s) == n
    ensures |s| == 1 || s[0] != '0'
    decreases n
  {
    if n < 10 then [DigitChar(n)]
    else
      var init := NatString(n / 10);
      var s := init + [DigitChar(n % 10)];
      assert s[..|s| - 1] == init;
      s
  }

  /** A field below 60 in two characters, `0` prefixed below 10. */
  function Pad2(v: nat): (s: string)
    requires v < 60
    ensures |s| == 2 && IsDecimal(s) && DecimalValue(s) == v
  {
    if v < 10 then
      var s := "0" + NatString(v);
      assert s[..1] == "0";
      s
    else
      assert NatString(v) == NatString(v / 10) + [DigitChar(v % 10)];
      NatString(v)
  }

  /** `formatTimer(secs)` for a whole, non-negative number of seconds. */
  function FormatTimer(secs: nat): string
  {
    var h := secs / 3600;
    var rest := secs % 3600;
    var m := rest / 60;
    var s := rest % 60;
    NatString(h) + ":" + Pad2(m) + ":" + Pad2(s)
  }

  /** Reads `h:mm:ss` back: any decimal hours, then two-digit minutes and
      seconds below 60. */
  function ParseTimer(t: string): Option<nat>
  {
    var n := |t|;
    if n < 7 || t[n - 3] != ':' || t[n - 6] != ':' then None
    else
      var hs, ms, ss := t[..n - 6], t[n - 5..n - 3], t[n - 2..];
      if !IsDecimal(hs) || !IsDecimal(ms) || !IsDecimal(ss) then None
      else
        var m, s := DecimalValue(ms), DecimalValue(ss);
        if m >= 60 || s >= 60 then None
        else Some(DecimalValue(hs) * 3600 + m * 60 + s)
  }

  /** The three fields: the hours unpadded and first, then minutes and
      seconds as two digits each, all below 60, adding up to `secs`. */
  lemma FormatTimerFields(secs: nat)
    ensures var t := FormatTimer(secs); var n := |t|;
      n >= 7 && t[n - 3] == ':' && t[n - 6] == ':' &&
      var hs, ms, ss := t[..n - 6], t[n - 5..n - 3], t[n - 2..];
      IsDecimal(hs) && (|hs| == 1 || hs[0] != '0') && IsDecimal(ms) && IsDecimal(ss) &&
      DecimalValue(ms) < 60 && DecimalValue(ss) < 60 &&
      DecimalValue(hs) * 3600 + DecimalValue(ms) * 60 + DecimalValue(ss) == secs
  {
    var h, m, s := secs / 3600, secs % 3600 / 60, secs % 3600 % 60;
    var hs, ms, ss := NatString(h), Pad2(m), Pad2(s);
    var t := FormatTimer(secs);
    assert t == hs + ":" + ms + ":" + ss;
    var n := |t|;
    assert t[..n - 6] == hs;
    assert t[n - 5..n - 3] == ms;
    assert t[n - 2..] == ss;
  }

  /** Reading the formatted time gives the seconds back, so different
      numbers of seconds are shown differently. */
  lemma ParseFormatTimer(secs: nat)
    ensures ParseTimer(FormatTimer(secs)) == Some(secs)
  {
    FormatTimerFields(secs);
    ParseFields(FormatTimer(secs), secs);
  }

  /** A text with the three fields of `secs` reads back to `secs`. */
  lemma ParseFields(t: string, secs: nat)
    requires var n := |t|;
      n >= 7 && t[n - 3] == ':' && t[n - 6] == ':' &&
      var hs, ms, ss := t[..n - 6], t[n - 5..n - 3], t[n - 2..];
      IsDecimal(hs) && IsDecimal(ms) && IsDecimal(ss) &&
      DecimalValue(ms) < 60 && DecimalValue(ss) < 60 &&
      DecimalValue(hs) * 3600 + DecimalValue(ms) * 60 + DecimalValue(ss) == secs
    ensures ParseTimer(t) == Some(secs)
  {
  }
}
