/**
 Cache file names: `flight_data_<YYYY-MM-DD_HH-MM-SS>.json`, built with
 `strftime` from the local time taken at the start of a cycle.
 */
module Naming {
  import opened Wrappers
  import Decimal

  /** A `datetime` value: local wall-clock time with microseconds, no time zone. */
  datatype DateTime = DateTime(
    year: nat, month: nat, day: nat,
    hour: nat, minute: nat, second: nat, microsecond: nat)

  predicate IsLeapYear(year: nat) {
    year % 4 == 0 && (year % 100 != 0 || year % 400 == 0)
  }

  function DaysInMonth(year: nat, month: nat): nat
    requires 1 <= month <= 12
  {
    if month == 2 then (if IsLeapYear(year) then 29 else 28)
    else if month in {4, 6, 9, 11} then 30
    else 31
  }

  /** The field ranges `datetime` enforces (MINYEAR = 1, MAXYEAR = 9999). */
  predicate ValidDateTime(t: DateTime) {
    && 1 <= t.year <= 9999
    && 1 <= t.month <= 12
    && 1 <= t.day <= DaysInMonth(t.year, t.month)
    && t.hour < 24 && t.minute < 60 && t.second < 60
    && t.microsecond < 1000000
  }

  type Timestamp = t: DateTime | ValidDateTime(t) witness DateTime(1970, 1, 1, 0, 0, 0, 0)

  /** What a file name keeps of a timestamp: everything down to the second. */
  datatype Second = Second(year: nat, month: nat, day: nat, hour: nat, minute: nat, second: nat)

  function Truncate(t: Timestamp): Second {
    Second(t.year, t.month, t.day, t.hour, t.minute, t.second)
  }

  const FilePrefix := "flight_data_"
  const FileSuffix := ".json"

  /** `strftime('%Y-%m-%d_%H-%M-%S')`: every field zero-filled, the year to four digits. */
  function Stamp(t: Timestamp): (s: string)
    ensures |s| == 19
  {
    Decimal.Padded(t.year, 4) + "-" + Decimal.Padded(t.month, 2) + "-" + Decimal.Padded(t.day, 2)
    + "_" + Decimal.Padded(t.hour, 2) + "-" + Decimal.Padded(t.minute, 2) + "-" + Decimal.Padded(t.second, 2)
  }

  /** The cache file name for a cycle that started at `t`. */
  function FileName(t: Timestamp): (name: string)
    ensures |name| == 36
    ensures name[0] != '/'
  {
    FilePrefix + Stamp(t) + FileSuffix
  }

  /** Reads the second back out of a cache file name; None if the name has another shape. */
  function ParseFileName(name: string): (r: Option<Second>)
  {
    if || |name| != 36
       || name[..12] != FilePrefix || name[31..] != FileSuffix
       || name[16] != '-' || name[19] != '-' || name[22] != '_'
       || name[25] != '-' || name[28] != '-'
    then None
    else
      var year := Decimal.Parse(name[12..16]);
      var month := Decimal.Parse(name[17..19]);
      var day := Decimal.Parse(name[20..22]);
      var hour := Decimal.Parse(name[23..25]);
      var minute := Decimal.Parse(name[26..28]);
      var second := Decimal.Parse(name[29..31]);
      if year.Some? && month.Some? && day.Some? && hour.Some? && minute.Some? && second.Some?
      then Some(Second(year.value, month.value, day.value, hour.value, minute.value, second.value))
      else None
  }

  lemma FieldWidths()
    ensures Decimal.Pow10(2) == 100 && Decimal.Pow10(4) == 10000
  {
    assert Decimal.Pow10(2) == 100;
    assert Decimal.Pow10(4) == 10 * Decimal.Pow10(3);
  }

  /** Where each field sits in a stamp assembled from fields of the right widths. */
  lemma StampLayout(y: string, mo: string, d: string, h: string, mi: string, s: string)
    requires |y| == 4 && |mo| == 2 && |d| == 2 && |h| == 2 && |mi| == 2 && |s| == 2
    ensures var stamp := y + "-" + mo + "-" + d + "_" + h + "-" + mi + "-" + s;
      && |stamp| == 19
      && stamp[4] == '-' && stamp[7] == '-' && stamp[10] == '_' && stamp[13] == '-' && stamp[16] == '-'
      && stamp[..4] == y && stamp[5..7] == mo && stamp[8..10] == d
      && stamp[11..13] == h && stamp[14..16] == mi && stamp[17..19] == s
  {
    var stamp := y + "-" + mo + "-" + d + "_" + h + "-" + mi + "-" + s;
    var date := y + "-" + mo + "-" + d;
    var time := h + "-" + mi + "-" + s;
    assert stamp == date + "_" + time;
    assert date[..4] == y && date[4] == '-' && date[5..7] == mo && date[7] == '-' && date[8..10] == d;
    assert time[..2] == h && time[2] == '-' && time[3..5] == mi && time[5] == '-' && time[6..8] == s;
    assert stamp[..10] == date && stamp[10] == '_' && stamp[11..] == time;
    assert stamp[..4] == date[..4] && stamp[5..7] == date[5..7] && stamp[8..10] == date[8..10];
    assert stamp[11..13] == time[..2] && stamp[14..16] == time[3..5] && stamp[17..19] == time[6..8];
  }

  /** Where each field sits in a name assembled from fields of the right widths. */
  lemma NameLayout(y: string, mo: string, d: string, h: string, mi: string, s: string)
    requires |y| == 4 && |mo| == 2 && |d| == 2 && |h| == 2 && |mi| == 2 && |s| == 2
    ensures var name := FilePrefix + (y + "-" + mo + "-" + d + "_" + h + "-" + mi + "-" + s) + FileSuffix;
      && |name| == 36
      && name[..12] == FilePrefix && name[31..] == FileSuffix
      && name[16] == '-' && name[19] == '-' && name[22] == '_' && name[25] == '-' && name[28] == '-'
      && name[12..16] == y && name[17..19] == mo && name[20..22] == d
      && name[23..25] == h && name[26..28] == mi && name[29..31] == s
  {
    var stamp := y + "-" + mo + "-" + d + "_" + h + "-" + mi + "-" + s;
    StampLayout(y, mo, d, h, mi, s);
    var name := FilePrefix + stamp + FileSuffix;
    assert name[..12] == FilePrefix && name[12..31] == stamp && name[31..] == FileSuffix;
    assert forall k :: 0 <= k < 19 ==> name[12 + k] == stamp[k];
    assert name[12..16] == stamp[..4];
    assert name[17..19] == stamp[5..7];
    assert name[20..22] == stamp[8..10];
    assert name[23..25] == stamp[11..13];
    assert name[26..28] == stamp[14..16];
    assert name[29..31] == stamp[17..19];
  }

  /** A file name reads back as the second its cycle started in. */
  lemma FileNameRoundTrip(t: Timestamp)
    ensures ParseFileName(FileName(t)) == Some(Truncate(t))
  {
    NameLayout(Decimal.Padded(t.year, 4), Decimal.Padded(t.month, 2), Decimal.Padded(t.day, 2),
               Decimal.Padded(t.hour, 2), Decimal.Padded(t.minute, 2), Decimal.Padded(t.second, 2));
    FieldWidths();
    Decimal.PaddedParse(t.year, 4);
    Decimal.PaddedParse(t.month, 2);
    Decimal.PaddedParse(t.day, 2);
    Decimal.PaddedParse(t.hour, 2);
    Decimal.PaddedParse(t.minute, 2);
    Decimal.PaddedParse(t.second, 2);
  }

  /**
   Two timestamps give the same file name exactly when they fall in the same
   second: microseconds are dropped, every other field is kept.
   */
  lemma FileNameSecondResolution(t1: Timestamp, t2: Timestamp)
    ensures FileName(t1) == FileName(t2) <==> Truncate(t1) == Truncate(t2)
  {
    FileNameRoundTrip(t1);
    FileNameRoundTrip(t2);
  }

  /** The example name for 9:05:07 on 3 February 2024. */
  lemma FileNameExample()
    ensures FileName(DateTime(2024, 2, 3, 9, 5, 7, 123456)) == "flight_data_2024-02-03_09-05-07.json"
  {
    var t: Timestamp := DateTime(2024, 2, 3, 9, 5, 7, 123456);
    assert Decimal.Padded(2024, 4) == "2024" by {
      assert Decimal.Padded(2, 1) == "2";
      assert Decimal.Padded(20, 2) == "20";
      assert Decimal.Padded(202, 3) == "202";
    }
    assert Decimal.Padded(2, 2) == "02";
    assert Decimal.Padded(3, 2) == "03";
    assert Decimal.Padded(9, 2) == "09";
    assert Decimal.Padded(5, 2) == "05";
    assert Decimal.Padded(7, 2) == "07";
    ExampleText(Decimal.Padded(2024, 4), Decimal.Padded(2, 2), Decimal.Padded(3, 2),
                Decimal.Padded(9, 2), Decimal.Padded(5, 2), Decimal.Padded(7, 2));
  }

  lemma ExampleText(y: string, mo: string, d: string, h: string, mi: string, s: string)
    requires y == "2024" && mo == "02" && d == "03" && h == "09" && mi == "05" && s == "07"
    ensures FilePrefix + (y + "-" + mo + "-" + d + "_" + h + "-" + mi + "-" + s) + FileSuffix
            == "flight_data_2024-02-03_09-05-07.json"
  {
  }
}
