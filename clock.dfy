/**
 * Calendar instants and the two textual forms the program writes:
 * `datetime.isoformat()` (sync timestamps and the database's `last_sync`) and
 * `strftime("%Y%m%d_%H%M%S")` (the suffix of backup directory names).
 * The clock itself is not modelled: every reading is a parameter.
 */
module Clock {

  import opened Common

  datatype DateTime = DateTime(year: int, month: int, day: int,
                               hour: int, minute: int, second: int, microsecond: int)

  /** Field ranges of a clock reading; years are four-digit so that `%Y` needs no padding. */
  predicate ValidDateTime(d: DateTime) {
    && 1000 <= d.year <= 9999 && 1 <= d.month <= 12 && 1 <= d.day <= 31
    && 0 <= d.hour < 24 && 0 <= d.minute < 60 && 0 <= d.second < 60
    && 0 <= d.microsecond < 1000000
  }

  /** A reading of `datetime.now()`. */
  type Instant = d: DateTime | ValidDateTime(d) witness DateTime(2000, 1, 1, 0, 0, 0, 0)

  function Pow10(n: nat): (r: nat)
    ensures r >= 1
  {
    if n == 0 then 1 else 10 * Pow10(n - 1)
  }

  predicate IsDigit(c: char) {
    '0' <= c <= '9'
  }

  predicate AllDigits(s: string) {
    forall i :: 0 <= i < |s| ==> IsDigit(s[i])
  }

  function DigitChar(d: int): (c: char)
    requires 0 <= d < 10
    ensures IsDigit(c)
  {
    ('0' as int + d) as char
  }

  function DigitValue(c: char): (d: nat)
    requires IsDigit(c)
    ensures d < 10 && DigitChar(d) == c
  {
    c as int - '0' as int
  }

  /** The last `width` decimal digits of `n`, zero-padded on the left (`%04d`, `%02d`, `%06d`). */
  function Digits(n: nat, width: nat): (s: string)
    ensures |s| == width && AllDigits(s)
  {
    if width == 0 then "" else Digits(n / 10, width - 1) + [DigitChar(n % 10)]
  }

  /** Reads a string of decimal digits back as a number. */
  function ParseDigits(s: string): (n: nat)
    requires AllDigits(s)
    ensures n < Pow10(|s|)
  {
    if s == [] then 0 else 10 * ParseDigits(s[..|s| - 1]) + DigitValue(s[|s| - 1])
  }

  lemma {:induction false} ParseDigitsOfDigits(n: nat, width: nat)
    requires n < Pow10(width)
    ensures ParseDigits(Digits(n, width)) == n
  {
    if width > 0 {
      var s := Digits(n, width);
      assert s[..width - 1] == Digits(n / 10, width - 1);
      assert n / 10 < Pow10(width - 1);
      ParseDigitsOfDigits(n / 10, width - 1);
    }
  }

  /** `strftime("%Y%m%d_%H%M%S")`: the timestamp that names a backup. */
  function CompactStamp(d: Instant): (s: string)
    ensures |s| == 15 && s[8] == '_'
    ensures AllDigits(s[..8]) && AllDigits(s[9..])
  {
    var s := Digits(d.year, 4) + Digits(d.month, 2) + Digits(d.day, 2) + "_"
             + Digits(d.hour, 2) + Digits(d.minute, 2) + Digits(d.second, 2);
    assert s[..8] == Digits(d.year, 4) + Digits(d.month, 2) + Digits(d.day, 2);
    assert s[9..] == Digits(d.hour, 2) + Digits(d.minute, 2) + Digits(d.second, 2);
    s
  }

  /** Reads a `YYYYMMDD_HHMMSS` stamp back into an instant with no sub-second part. */
  function ParseCompactStamp(s: string): Option<DateTime> {
    if |s| == 15 && s[8] == '_' && AllDigits(s[..8]) && AllDigits(s[9..]) then
      Some(DateTime(ParseDigits(s[0..4]), ParseDigits(s[4..6]), ParseDigits(s[6..8]),
                    ParseDigits(s[9..11]), ParseDigits(s[11..13]), ParseDigits(s[13..15]), 0))
    else
      None
  }

  /** The backup stamp keeps everything but the sub-second part of the reading. */
  lemma CompactStampRoundTrip(d: Instant)
    ensures ParseCompactStamp(CompactStamp(d)) == Some(d.(microsecond := 0))
  {
    var y, mo, dd := Digits(d.year, 4), Digits(d.month, 2), Digits(d.day, 2);
    var h, mi, se := Digits(d.hour, 2), Digits(d.minute, 2), Digits(d.second, 2);
    var s := CompactStamp(d);
    assert s == y + mo + dd + "_" + h + mi + se;
    assert |y| == 4 && |mo| == 2 && |dd| == 2 && |h| == 2 && |mi| == 2 && |se| == 2;
    // Each field is the tail of a prefix of the stamp.
    assert s[..4] == y;
    assert s[..6] == y + mo;
    assert s[..8] == y + mo + dd;
    assert s[..11] == y + mo + dd + "_" + h;
    assert s[..13] == y + mo + dd + "_" + h + mi;
    assert s[0..4] == y && s[4..6] == mo && s[6..8] == dd;
    assert s[9..11] == h && s[11..13] == mi && s[13..15] == se;
    ParseDigitsOfDigits(d.year, 4);
    ParseDigitsOfDigits(d.month, 2);
    ParseDigitsOfDigits(d.day, 2);
    ParseDigitsOfDigits(d.hour, 2);
    ParseDigitsOfDigits(d.minute, 2);
    ParseDigitsOfDigits(d.second, 2);
  }

  /** Two readings give the same backup stamp exactly when they fall in the same second. */
  lemma CompactStampSameSecond(d1: Instant, d2: Instant)
    ensures CompactStamp(d1) == CompactStamp(d2) <==> d1.(microsecond := 0) == d2.(microsecond := 0)
  {
    CompactStampRoundTrip(d1);
    CompactStampRoundTrip(d2);
  }

  /** The `YYYY-MM-DDTHH:MM:SS` part of `datetime.isoformat()`. */
  function IsoSeconds(d: Instant): (w: string)
    ensures |w| == 19
    ensures w[4] == '-' && w[7] == '-' && w[10] == 'T' && w[13] == ':' && w[16] == ':'
  {
    Digits(d.year, 4) + "-" + Digits(d.month, 2) + "-" + Digits(d.day, 2) + "T"
    + Digits(d.hour, 2) + ":" + Digits(d.minute, 2) + ":" + Digits(d.second, 2)
  }

  /** `datetime.isoformat()`: `YYYY-MM-DDTHH:MM:SS`, followed by `.ffffff` only when the microsecond is not zero. */
  function IsoFormat(d: Instant): (s: string)
    ensures |s| == (if d.microsecond == 0 then 19 else 26)
    ensures s[4] == '-' && s[7] == '-' && s[10] == 'T' && s[13] == ':' && s[16] == ':'
    ensures d.microsecond != 0 ==> s[19] == '.'
  {
    IsoSeconds(d) + (if d.microsecond != 0 then "." + Digits(d.microsecond, 6) else "")
  }

  /** Reads the `YYYY-MM-DDTHH:MM:SS` part of an `isoformat()` string; no sub-second part. */
  function ParseIsoSeconds(w: string): Option<DateTime> {
    if |w| == 19 && w[4] == '-' && w[7] == '-' && w[10] == 'T' && w[13] == ':' && w[16] == ':'
       && AllDigits(w[0..4]) && AllDigits(w[5..7]) && AllDigits(w[8..10])
       && AllDigits(w[11..13]) && AllDigits(w[14..16]) && AllDigits(w[17..19])
    then
      Some(DateTime(ParseDigits(w[0..4]), ParseDigits(w[5..7]), ParseDigits(w[8..10]),
                    ParseDigits(w[11..13]), ParseDigits(w[14..16]), ParseDigits(w[17..19]), 0))
    else
      None
  }

  /** Reads an `isoformat()` string (either length) back into an instant. */
  function ParseIsoFormat(s: string): Option<DateTime> {
    if |s| == 19 || (|s| == 26 && s[19] == '.' && AllDigits(s[20..])) then
      match ParseIsoSeconds(s[..19])
      case None => None
      case Some(d) => Some(d.(microsecond := if |s| == 26 then ParseDigits(s[20..]) else 0))
    else
      None
  }

  /** The seconds part of `isoformat()` reads back as the reading without its sub-second part. */
  lemma IsoSecondsRoundTrip(d: Instant)
    ensures ParseIsoSeconds(IsoSeconds(d)) == Some(d.(microsecond := 0))
  {
    var y, mo, dd := Digits(d.year, 4), Digits(d.month, 2), Digits(d.day, 2);
    var h, mi, se := Digits(d.hour, 2), Digits(d.minute, 2), Digits(d.second, 2);
    var w := IsoSeconds(d);
    assert w == y + "-" + mo + "-" + dd + "T" + h + ":" + mi + ":" + se;
    assert |y| == 4 && |mo| == 2 && |dd| == 2 && |h| == 2 && |mi| == 2 && |se| == 2;
    // Each field is the tail of a prefix of the text.
    assert w[..4] == y;
    assert w[..7] == y + "-" + mo;
    assert w[..10] == y + "-" + mo + "-" + dd;
    assert w[..13] == y + "-" + mo + "-" + dd + "T" + h;
    assert w[..16] == y + "-" + mo + "-" + dd + "T" + h + ":" + mi;
    assert w[0..4] == y && w[5..7] == mo && w[8..10] == dd;
    assert w[11..13] == h && w[14..16] == mi && w[17..19] == se;
    ParseDigitsOfDigits(d.year, 4);
    ParseDigitsOfDigits(d.month, 2);
    ParseDigitsOfDigits(d.day, 2);
    ParseDigitsOfDigits(d.hour, 2);
    ParseDigitsOfDigits(d.minute, 2);
    ParseDigitsOfDigits(d.second, 2);
  }

  /** `isoformat()` loses nothing: the whole reading, microseconds included, can be read back. */
  lemma IsoFormatRoundTrip(d: Instant)
    ensures ParseIsoFormat(IsoFormat(d)) == Some(d)
  {
    var s := IsoFormat(d);
    var frac := if d.microsecond != 0 then "." + Digits(d.microsecond, 6) else "";
    assert s == IsoSeconds(d) + frac;
    assert s[..19] == IsoSeconds(d);
    IsoSecondsRoundTrip(d);
    if d.microsecond != 0 {
      assert s[20..] == Digits(d.microsecond, 6);
      ParseDigitsOfDigits(d.microsecond, 6);
    }
  }
}
