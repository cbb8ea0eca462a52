/**
 * The object-store path of one forecast file: bucket, run date, sector,
 * cycle hour and forecast hour, formatted as Python f-strings do.
 */
module Utils {
  import opened Wrappers
  import opened Decimal
  import Config

  /** A calendar date, with the fields Python's `date` carries. */
  datatype CivilDate = CivilDate(year: int, month: int, day: int)

  predicate IsLeapYear(y: int) {
    (y % 4 == 0 && y % 100 != 0) || y % 400 == 0
  }

  function DaysInMonth(y: int, m: int): int
    requires 1 <= m <= 12
  {
    if m == 2 then (if IsLeapYear(y) then 29 else 28)
    else if m == 4 || m == 6 || m == 9 || m == 11 then 30
    else 31
  }

  /** Dates whose `%Y` rendering is four digits on every platform. */
  predicate ValidDate(d: CivilDate) {
    && 1000 <= d.year <= 9999
    && 1 <= d.month <= 12
    && 1 <= d.day <= DaysInMonth(d.year, d.month)
  }

  type Date = d: CivilDate | ValidDate(d) witness CivilDate(2025, 1, 1)

  /** `f"{d:%Y%m%d}"`: eight digits, year, month and day, zero padded. */
  function FormatDate(d: Date): (s: string)
    ensures |s| == 8 && AllDigits(s)
  {
    PadDigitsWidth(d.year, 4);
    PadDigitsWidth(d.month, 2);
    PadDigitsWidth(d.day, 2);
    PadDigits(d.year, 4) + PadDigits(d.month, 2) + PadDigits(d.day, 2)
  }

  /** `f"{h:02}"` for an `int`: at least two characters, a minus sign for negatives. */
  function FormatHour(h: int): (s: string)
    ensures |s| >= 2
  {
    if h >= 0 then PadDigits(h, 2) else "-" + Digits(-h)
  }

  /** Reads back what FormatHour renders. */
  function ParseHour(s: string): int {
    if |s| >= 2 && s[0] == '-' && AllDigits(s[1..]) then 0 - DigitsValue(s[1..]) as int
    else if AllDigits(s) then DigitsValue(s)
    else 0
  }

  const Sector: string := "conus"
  const Product: string := "wrfsfcf"

  /** Everything in front of the date. */
  function PathHead(): string {
    Config.S3BucketUrl + ".s3.amazonaws.com/hrrr."
  }

  /** Everything between the date and the forecast hour. */
  function PathMiddle(): string {
    "/" + Sector + "/" + "hrrr.t" + FormatHour(Config.RunHour) + "z." + Product
  }

  const PathTail: string := ".grib2"

  /**
   * get_s3_path(run_date, forecast_hour): the URL
   * `{S3_BUCKET_URL}.s3.amazonaws.com/hrrr.{date}/{sector}/{file_path}` with
   * `file_path = hrrr.t{RUN_HOUR:02}z.{product}{forecast_hour:02}.grib2`,
   * written as the constant head, the date, the constant middle, the hour
   * and the constant tail.
   */
  function GetS3Path(runDate: Date, forecastHour: int): string {
    PathHead() + FormatDate(runDate) + PathMiddle() + FormatHour(forecastHour) + PathTail
  }

  /** Reads an eight-digit `YYYYMMDD` back into a date, if it is one. */
  function ParseDate(s: string): Option<Date>
    requires |s| == 8 && AllDigits(s)
  {
    var d := CivilDate(DigitsValue(s[..4]), DigitsValue(s[4..6]), DigitsValue(s[6..]));
    if ValidDate(d) then Some(d) else None
  }

  /**
   * The inverse of GetS3Path: the run date and forecast hour a path names,
   * or None when it is not a path GetS3Path produces.
   */
  function ParseS3Path(url: string): (r: Option<(Date, int)>)
    ensures r.Some? ==> GetS3Path(r.value.0, r.value.1) == url
  {
    var h := |PathHead()|;
    var m := |PathMiddle()|;
    if |url| < h + 8 + m + |PathTail| || !AllDigits(url[h..h + 8]) then None
    else
      match ParseDate(url[h..h + 8])
      case None => None
      case Some(d) =>
        var hour := ParseHour(url[h + 8 + m..|url| - |PathTail|]);
        if GetS3Path(d, hour) == url then Some((d, hour)) else None
  }

  lemma FormatDateRoundTrip(d: Date)
    ensures ParseDate(FormatDate(d)) == Some(d)
  {
    var s := FormatDate(d);
    PadDigitsWidth(d.year, 4);
    PadDigitsWidth(d.month, 2);
    PadDigitsWidth(d.day, 2);
    assert s[..4] == PadDigits(d.year, 4);
    assert s[4..6] == PadDigits(d.month, 2);
    assert s[6..] == PadDigits(d.day, 2);
    PadDigitsRoundTrip(d.year, 4);
    PadDigitsRoundTrip(d.month, 2);
    PadDigitsRoundTrip(d.day, 2);
  }

  lemma FormatHourRoundTrip(h: int)
    ensures ParseHour(FormatHour(h)) == h
  {
    var s := FormatHour(h);
    if h >= 0 {
      PadDigitsRoundTrip(h, 2);
      assert IsDigit(s[0]);
    } else {
      assert s[1..] == Digits(-h);
      DigitsRoundTrip(-h);
    }
  }

  /** Every path GetS3Path produces parses back to its own arguments. */
  lemma S3PathRoundTrip(d: Date, hour: int)
    ensures ParseS3Path(GetS3Path(d, hour)) == Some((d, hour))
  {
    var url := GetS3Path(d, hour);
    var h := |PathHead()|;
    var m := |PathMiddle()|;
    var fd := FormatDate(d);
    var fh := FormatHour(hour);
    assert url == PathHead() + fd + PathMiddle() + fh + PathTail;
    assert url[h..h + 8] == fd;
    assert url[h + 8 + m..|url| - |PathTail|] == fh;
    FormatDateRoundTrip(d);
    FormatHourRoundTrip(hour);
  }

  /** A string parses to (d, hour) exactly when it is the path of (d, hour). */
  lemma ParseS3PathExact(url: string, d: Date, hour: int)
    ensures ParseS3Path(url) == Some((d, hour)) <==> url == GetS3Path(d, hour)
  {
    if url == GetS3Path(d, hour) {
      S3PathRoundTrip(d, hour);
    }
  }

  /** Distinct run dates or forecast hours give distinct paths. */
  lemma S3PathInjective(d1: Date, h1: int, d2: Date, h2: int)
    requires GetS3Path(d1, h1) == GetS3Path(d2, h2)
    ensures d1 == d2 && h1 == h2
  {
    S3PathRoundTrip(d1, h1);
    S3PathRoundTrip(d2, h2);
  }

  /** The cycle hour is always rendered "06". */
  lemma RunHourRendered()
    ensures FormatHour(Config.RunHour) == "06"
  {
    assert Digits(6) == ['6'];
    assert Zeros(1) == ['0'];
  }

  /** Forecast hours 0 .. 99 are rendered in exactly two digits. */
  lemma TwoDigitHours(h: int)
    requires 0 <= h < 100
    ensures |FormatHour(h)| == 2 && AllDigits(FormatHour(h))
    ensures FormatHour(h) == [DigitChar(h / 10), DigitChar(h % 10)]
  {
    if h < 10 {
      assert Zeros(1) == ['0'];
    } else {
      assert Digits(h / 10) == [DigitChar(h / 10)];
    }
  }

  lemma ExampleDate()
    ensures FormatDate(CivilDate(2025, 1, 1)) == "20250101"
  {
    assert Digits(2025) == ['2', '0', '2', '5'] by {
      assert Digits(2) == ['2'];
      assert Digits(20) == Digits(2) + ['0'];
      assert Digits(202) == Digits(20) + ['2'];
    }
    assert PadDigits(2025, 4) == "2025";
    assert PadDigits(1, 2) == "01" by { assert Zeros(1) == ['0']; }
  }

  lemma PathHeadText()
    ensures PathHead() == "s3://noaa-hrrr-bdp-pds.s3.amazonaws.com/" + "hrrr."
  {
  }

  lemma PathMiddleText()
    ensures PathMiddle() == "/conus/hrrr.t06z.wrfsfcf"
  {
    RunHourRendered();
  }

  /**
   * The example in the source's own documentation: the 2025-01-01 run at
   * forecast hour 0 is `hrrr.20250101/conus/hrrr.t06z.wrfsfcf00.grib2`
   * behind the bucket's host name.
   */
  lemma ExamplePath()
    ensures GetS3Path(CivilDate(2025, 1, 1), 0)
      == "s3://noaa-hrrr-bdp-pds.s3.amazonaws.com/" + "hrrr." + "20250101" + "/conus/hrrr.t06z.wrfsfcf" + "00" + ".grib2"
  {
    ExampleDate();
    TwoDigitHours(0);
    PathHeadText();
    PathMiddleText();
  }
}
