/** `lcd_print_data`: the two 16-column lines the controller shows. The first line is the
    date and time `DD-MM-YYYY HH:MM` written with `snprintf` into an 18-byte buffer, the
    colon blinking with the seconds; the second packs temperature, humidity and the
    duration, with -1.0 in place of a reading the sensor never delivered. */
module LcdPrint {
  import opened Common
  import opened Rtc
  import opened DhtUtil

  /** `sizeof(dtx)` of the date-line buffer. */
  const DATE_BUFFER_SIZE: nat := 18

  function Pow10(n: nat): (p: nat)
    ensures p >= 1
  {
    if n == 0 then 1 else 10 * Pow10(n - 1)
  }

  predicate IsDigit(c: char) {
    '0' <= c <= '9'
  }

  function DigitChar(d: nat): (c: char)
    requires d < 10
    ensures IsDigit(c) && (c as int) - ('0' as int) == d
  {
    ('0' as int + d) as char
  }

  /** `%d` of a non-negative integer: its decimal digits, without leading zeros. */
  function Decimal(n: nat): (s: string)
    ensures |s| >= 1
    ensures forall i :: 0 <= i < |s| ==> IsDigit(s[i])
  {
    if n < 10 then [DigitChar(n)] else Decimal(n / 10) + [DigitChar(n % 10)]
  }

  function Zeros(k: nat): (s: string)
    ensures |s| == k && forall i :: 0 <= i < k ==> s[i] == '0'
  {
    if k == 0 then "" else Zeros(k - 1) + "0"
  }

  /** `%0<width>d`: the decimal digits, left-padded with zeros to `width` characters;
      a number with more digits is printed in full. */
  function ZeroPad(n: nat, width: nat): (s: string)
    ensures forall i :: 0 <= i < |s| ==> IsDigit(s[i])
  {
    var ds := Decimal(n);
    if |ds| >= width then ds else Zeros(width - |ds|) + ds
  }

  function DigitValue(c: char): (d: nat)
    requires IsDigit(c)
    ensures d < 10 && DigitChar(d) == c
  {
    (c as int) - ('0' as int)
  }

  /** The number a string of decimal digits denotes (the partner of `Decimal`). */
  function Value(s: string): nat
    requires forall i :: 0 <= i < |s| ==> IsDigit(s[i])
  {
    if s == [] then 0 else 10 * Value(s[..|s| - 1]) + DigitValue(s[|s| - 1])
  }

  /** Reading back what `%d` printed gives the number. */
  lemma {:induction false} DecimalRoundTrip(n: nat)
    ensures Value(Decimal(n)) == n
  {
    if n >= 10 {
      DecimalRoundTrip(n / 10);
      var s := Decimal(n);
      assert s[..|s| - 1] == Decimal(n / 10);
    }
  }

  /** `%d` prints at most `w` digits, for `w` at least 1, exactly when the number is
      below 10^w. */
  lemma {:induction false} DecimalLength(n: nat, w: nat)
    requires w >= 1
    ensures |Decimal(n)| <= w <==> n < Pow10(w)
  {
    if n >= 10 {
      if w > 1 {
        DecimalLength(n / 10, w - 1);
      } else {
        assert |Decimal(n / 10)| >= 1;
      }
    } else {
      assert |Decimal(n)| == 1;
      Pow10Grows(w);
    }
  }

  lemma {:induction false} Pow10Grows(w: nat)
    requires w > 0
    ensures Pow10(w) >= 10
  {
    if w > 1 { Pow10Grows(w - 1); }
  }

  /** Leading zeros do not change the value. */
  lemma {:induction false} ZerosPrefixValueAt(k: nat, s: string)
    requires forall i :: 0 <= i < |s| ==> IsDigit(s[i])
    ensures Value(Zeros(k) + s) == Value(s)
    decreases |s|
  {
    var z := Zeros(k) + s;
    if s == [] {
      assert z == Zeros(k);
      ZerosValue(k);
    } else {
      ZerosPrefixValueAt(k, s[..|s| - 1]);
      assert z[..|z| - 1] == Zeros(k) + s[..|s| - 1];
    }
  }

  lemma {:induction false} ZerosValue(k: nat)
    ensures Value(Zeros(k)) == 0
  {
    if k > 0 {
      ZerosValue(k - 1);
      assert Zeros(k)[..k - 1] == Zeros(k - 1);
    }
  }

  /** A number below 10^w is printed by `%0<w>d` in exactly `w` digits, and reads back. */
  lemma ZeroPadFits(n: nat, w: nat)
    requires w >= 1 && n < Pow10(w)
    ensures |ZeroPad(n, w)| == w
    ensures Value(ZeroPad(n, w)) == n
  {
    DecimalLength(n, w);
    DecimalRoundTrip(n);
    ZerosPrefixValueAt(w - |Decimal(n)|, Decimal(n));
  }

  /** The character between hour and minute: a colon on even seconds, a blank on odd. */
  function Separator(sec: u8): char {
    if sec % 2 != 0 then ' ' else ':'
  }

  /** A `uint16_t` passed for `%d` on AVR, where `int` is 16 bits wide: the vararg is
      read back as a two's complement `int`. */
  function AsInt16(x: u16): (i: int)
    ensures x < 0x8000 ==> i == x
    ensures x >= 0x8000 ==> i == x - 0x1_0000 && i < 0
    ensures -0x8000 <= i < 0x8000 && (x - i) % 0x1_0000 == 0
  {
    if x < 0x8000 then x else x - 0x1_0000
  }

  /** `%0<width>d` of any `int`: a negative number is a minus sign followed by its
      magnitude zero-padded to the rest of the width. */
  function SignedZeroPad(n: int, width: nat): (s: string)
    ensures n >= 0 ==> s == ZeroPad(n, width)
    ensures n < 0 ==> |s| >= 2 && s[0] == '-'
  {
    if n >= 0 then ZeroPad(n, width) else "-" + ZeroPad(-n, if width == 0 then 0 else width - 1)
  }

  /** A negative number whose magnitude fits the rest of the width prints in exactly
      `w` characters: the minus sign, then digits that read back as the magnitude. */
  lemma SignedZeroPadFits(n: int, w: nat)
    requires w >= 2 && n < 0 && -n < Pow10(w - 1)
    ensures |SignedZeroPad(n, w)| == w
    ensures Value(SignedZeroPad(n, w)[1..]) == -n
  {
    ZeroPadFits(-n, w - 1);
    assert SignedZeroPad(n, w)[1..] == ZeroPad(-n, w - 1);
  }

  /** A year of 32768 or more is printed as a negative number: 65535 shows as "-001". */
  lemma WideYearPrintsNegative()
    ensures AsInt16(65535) == -1
    ensures SignedZeroPad(AsInt16(65535), 4) == "-001"
  {
    assert Decimal(1) == "1";
    assert Zeros(2) == "00";
  }

  /** The untruncated text of `"%02d-%02d-%04d %02d%c%02d"`. The `uint8_t` fields are
      promoted to `int` unchanged; the `uint16_t` year is reinterpreted as `int`. */
  function DateText(t: Time): string {
    ZeroPad(t.date, 2) + "-" + ZeroPad(t.mon, 2) + "-" + SignedZeroPad(AsInt16(t.year), 4) + " "
    + ZeroPad(t.hour, 2) + [Separator(t.sec)] + ZeroPad(t.min, 2)
  }

  /** The date line as `snprintf` leaves it in the buffer: the whole text when it fits
      in the buffer less its terminating NUL, otherwise exactly the first 17 characters. */
  function FormatDateLine(t: Time): (line: string)
    ensures |line| <= DATE_BUFFER_SIZE - 1 && |line| <= |DateText(t)|
    ensures |line| == if |DateText(t)| <= DATE_BUFFER_SIZE - 1 then |DateText(t)| else DATE_BUFFER_SIZE - 1
    ensures line == DateText(t)[..|line|]
  {
    var full := DateText(t);
    if |full| <= DATE_BUFFER_SIZE - 1 then full else full[..DATE_BUFFER_SIZE - 1]
  }

  /** Fields that fit their printed widths: day, month, hour and minute below 100, the
      year below 10000. A real calendar date and time always does. */
  predicate FitsWidths(t: Time) {
    t.date < 100 && t.mon < 100 && t.year < 10000 && t.hour < 100 && t.min < 100
  }

  /** The columns of `DD-MM-YYYY HH?MM`, for any fields of the printed widths. */
  lemma ColumnLayout(dd: string, mm: string, yyyy: string, hh: string, sep: char, mi: string)
    requires |dd| == 2 && |mm| == 2 && |yyyy| == 4 && |hh| == 2 && |mi| == 2
    ensures var line := dd + "-" + mm + "-" + yyyy + " " + hh + [sep] + mi;
      && |line| == 16
      && line[2] == '-' && line[5] == '-' && line[10] == ' ' && line[13] == sep
      && line[0..2] == dd && line[3..5] == mm && line[6..10] == yyyy
      && line[11..13] == hh && line[14..16] == mi
  {
    var line := dd + "-" + mm + "-" + yyyy + " " + hh + [sep] + mi;
    var head := dd + "-" + mm + "-" + yyyy + " " + hh;
    assert line == head + [sep] + mi;
    assert head[0..2] == dd && head[3..5] == mm && head[6..10] == yyyy && head[11..13] == hh;
    assert line[..13] == head;
  }

  /** For fields that fit, the date line is exactly the 16 characters
      `DD-MM-YYYY HH?MM` and each field reads back from its columns. */
  lemma DateLineLayout(t: Time)
    requires FitsWidths(t)
    ensures var line := FormatDateLine(t);
      && |line| == 16
      && line[2] == '-' && line[5] == '-' && line[10] == ' '
      && line[13] == Separator(t.sec)
      && Value(line[0..2]) == t.date && Value(line[3..5]) == t.mon
      && Value(line[6..10]) == t.year && Value(line[11..13]) == t.hour
      && Value(line[14..16]) == t.min
  {
    assert Pow10(2) == 100 && Pow10(4) == 10000;
    assert SignedZeroPad(AsInt16(t.year), 4) == ZeroPad(t.year, 4);
    ZeroPadFits(t.date, 2);
    ZeroPadFits(t.mon, 2);
    ZeroPadFits(t.year, 4);
    ZeroPadFits(t.hour, 2);
    ZeroPadFits(t.min, 2);
    ColumnLayout(ZeroPad(t.date, 2), ZeroPad(t.mon, 2), ZeroPad(t.year, 4),
                 ZeroPad(t.hour, 2), Separator(t.sec), ZeroPad(t.min, 2));
  }

  /** The separator blinks: column 13 holds a colon exactly on even seconds. */
  lemma DateLineBlinks(t: Time)
    requires FitsWidths(t)
    ensures FormatDateLine(t)[13] == ':' <==> t.sec % 2 == 0
    ensures FormatDateLine(t)[13] == ' ' <==> t.sec % 2 == 1
  {
    DateLineLayout(t);
  }

  /** What the two display lines carry. Line 1 is drawn by `dtostrf`, which is floating
      point and not modelled, so it is kept as the three values it prints. */
  datatype Screen = Screen(dateLine: string, temperature: real, humidity: real, duration: real)

  /** The value printed for a reading: the stored one once a read has succeeded,
      the sentinel -1.0 before that. */
  const NO_READING: real := -1.0

  /** `lcd_print_data(lcd, atime, dht_data_out, dur_on)`. */
  function LcdPrintData(atime: Time, rec: Record, durOn: real): (s: Screen)
    ensures s.dateLine == FormatDateLine(atime) && s.duration == durOn
    ensures rec.statusOk ==> s.temperature == rec.temperature && s.humidity == rec.humidity
    ensures !rec.statusOk ==> s.temperature == NO_READING && s.humidity == NO_READING
  {
    Screen(FormatDateLine(atime),
           if rec.statusOk then rec.temperature else NO_READING,
           if rec.statusOk then rec.humidity else NO_READING,
           durOn)
  }
}
