/** The discrete parts of the "accurate" ephemeris script: the Julian Day of a calendar date
    and time, the script's own copy of the sign lookup, the Midheaven a quarter turn past the
    Ascendant, and the serialiser of its chart. The orbital computations that produce the
    longitudes are not part of this model. */
module AccurateEphemeris {
  import opened Wrappers
  import opened JsNumber
  import opened Zodiac
  import BirthChartCalculator
  import D3Chart

  // ---------------------------------------------------------------------------------------
  // Julian Day

  /** The value `julianDay` computes once January and February have been moved to months 13
      and 14 of the previous year. */
  function JulianSum(year: int, month: int, day: real, hour: real, minute: real, second: real): real
  {
    var a := Floor(year as real / 100.0);
    var b := 2 - a + Floor(a as real / 4.0);
    Floor(365.25 * (year + 4716) as real) as real + Floor(30.6001 * (month + 1) as real) as real
      + day + b as real - 1524.5 + hour / 24.0 + minute / 1440.0 + second / 86400.0
  }

  /** The Julian Day of a date and time, `second` already defaulted. */
  function JulianDayOf(year: int, month: int, day: real, hour: real, minute: real, second: real): real
  {
    if month <= 2 then JulianSum(year - 1, month + 12, day, hour, minute, second)
    else JulianSum(year, month, day, hour, minute, second)
  }

  /** `julianDay(year, month, day, hour, minute, second = 0)`: January and February count as
      months 13 and 14 of the year before; an omitted `second` is 0. */
  method JulianDay(year: int, month: int, day: real, hour: real, minute: real, second: Option<real>)
    returns (jd: real)
    ensures jd == JulianDayOf(year, month, day, hour, minute, if second.Some? then second.value else 0.0)
  {
    var y := year;
    var m := month;
    var s := if second.Some? then second.value else 0.0;
    if m <= 2 {
      y := y - 1;
      m := m + 12;
    }
    var a := Floor(y as real / 100.0);
    var b := 2 - a + Floor(a as real / 4.0);
    jd := Floor(365.25 * (y + 4716) as real) as real + Floor(30.6001 * (m + 1) as real) as real
          + day + b as real - 1524.5 + hour / 24.0 + minute / 1440.0 + s / 86400.0;
  }

  /** Noon of 1 January 2000 is Julian Day 2451545, the J2000 epoch the script measures
      centuries from. */
  lemma JulianEpoch()
    ensures JulianDayOf(2000, 1, 1.0, 12.0, 0.0, 0.0) == 2451545.0
  {
    YearPartValue(1999);
    MonthPartValues();
    JulianSumParts(1999, 13, 1.0, 12.0, 0.0, 0.0);
  }

  /** The time of day adds its fraction of a day to the Julian Day of midnight, and each
      day of the month adds one. */
  lemma JulianDayTime(year: int, month: int, day: real, hour: real, minute: real, second: real)
    ensures JulianDayOf(year, month, day, hour, minute, second)
         == JulianDayOf(year, month, 1.0, 0.0, 0.0, 0.0) + (day - 1.0)
            + hour / 24.0 + minute / 1440.0 + second / 86400.0
  {
  }

  /** The size of a month of the Gregorian calendar. */
  function GregorianMonthDays(year: int, month: int): int
    requires 1 <= month <= 12
  {
    if month == 2 then (if (year % 4 == 0 && year % 100 != 0) || year % 400 == 0 then 29 else 28)
    else if month == 4 || month == 6 || month == 9 || month == 11 then 30
    else 31
  }

  /** From the first of a month to the first of the next, the Julian Day advances by the
      length of that month in the Gregorian calendar, leap years and the century rule
      included. */
  lemma MonthLengths(year: int, month: int)
    requires 1 <= month <= 12
    ensures month < 12 ==>
      JulianDayOf(year, month + 1, 1.0, 0.0, 0.0, 0.0) - JulianDayOf(year, month, 1.0, 0.0, 0.0, 0.0)
        == GregorianMonthDays(year, month) as real
    ensures month == 12 ==>
      JulianDayOf(year + 1, 1, 1.0, 0.0, 0.0, 0.0) - JulianDayOf(year, 12, 1.0, 0.0, 0.0, 0.0)
        == GregorianMonthDays(year, 12) as real
  {
    if month == 1 {
      MonthStart(year, 2, 14);
      MonthStart(year, 1, 13);
      MonthPartValues();
    } else if month == 2 {
      MonthStart(year, 3, 3);
      MonthStart(year, 2, 14);
      FebruaryDays(year);
    } else if month == 12 {
      MonthStart(year + 1, 1, 13);
      MonthStart(year, 12, 12);
      MonthPartValues();
    } else {
      MonthStart(year, month + 1, month + 1);
      MonthStart(year, month, month);
      MonthStep(year, month);
    }
  }

  /** The Julian Day of the first of a month at midnight, in terms of the two parts. */
  lemma MonthStart(year: int, month: int, shifted: int)
    requires shifted == (if month <= 2 then month + 12 else month)
    ensures JulianDayOf(year, month, 1.0, 0.0, 0.0, 0.0)
         == (YearPart(if month <= 2 then year - 1 else year) + MonthPart(shifted)) as real - 1523.5
  {
    JulianSumParts(if month <= 2 then year - 1 else year, shifted, 1.0, 0.0, 0.0, 0.0);
  }

  /** A year divisible by 400 is divisible by 100, and one divisible by 100 by 4. */
  lemma CenturyDivides(year: int)
    ensures year % 400 == 0 ==> year % 100 == 0
    ensures year % 100 == 0 ==> year % 4 == 0
  {
    if year % 400 == 0 {
      assert year == 400 * (year / 400);
      assert year == 100 * (4 * (year / 400));
    }
    if year % 100 == 0 {
      assert year == 100 * (year / 100);
      assert year == 4 * (25 * (year / 100));
    }
  }

  /** February's length comes from the year part's step: a month part of 459 for the shifted
      February against 122 for March, plus the year's 365 or 366 days. */
  lemma FebruaryDays(year: int)
    ensures YearPart(year) - YearPart(year - 1) + MonthPart(3) - MonthPart(14) == GregorianMonthDays(year, 2)
  {
    MonthPartValues();
    YearPartStep(year);
    CenturyDivides(year);
    assert MonthPart(3) - MonthPart(14) == -337;
  }

  /** Within March to December the month part alone makes the month's length. */
  lemma MonthStep(year: int, month: int)
    requires 3 <= month <= 11
    ensures MonthPart(month + 1) - MonthPart(month) == GregorianMonthDays(year, month)
  {
    MonthPartValues();
    if month == 3 {} else if month == 4 {} else if month == 5 {} else if month == 6 {}
    else if month == 7 {} else if month == 8 {} else if month == 9 {} else if month == 10 {}
  }

  /** The integer part of `JulianSum` that depends on the year alone. */
  function YearPart(year: int): int
  {
    var a := Floor(year as real / 100.0);
    Floor(365.25 * (year + 4716) as real) + 2 - a + Floor(a as real / 4.0)
  }

  /** The integer part that depends on the month alone. */
  function MonthPart(month: int): int
  {
    Floor(30.6001 * (month + 1) as real)
  }

  lemma JulianSumParts(year: int, month: int, day: real, hour: real, minute: real, second: real)
    ensures JulianSum(year, month, day, hour, minute, second)
         == (YearPart(year) + MonthPart(month)) as real + day - 1524.5
            + hour / 24.0 + minute / 1440.0 + second / 86400.0
  {
  }

  /** `Math.floor` of a quotient by 4 or 100 is Euclidean integer division. */
  lemma FloorQuarter(n: int)
    ensures Floor(n as real / 4.0) == n / 4
  {
    var q := n / 4;
    assert n as real / 4.0 == q as real + (n % 4) as real / 4.0;
  }

  lemma FloorHundredth(n: int)
    ensures Floor(n as real / 100.0) == n / 100
  {
    var q := n / 100;
    assert n as real / 100.0 == q as real + (n % 100) as real / 100.0;
  }

  /** `Math.floor(365.25 k)` is 365 days a year plus one every fourth year. */
  lemma FloorYears(k: int)
    ensures Floor(365.25 * k as real) == 365 * k + k / 4
  {
    var q := k / 4;
    assert 365.25 * k as real == (365 * k + q) as real + (k % 4) as real / 4.0;
  }

  /** The year part as integer arithmetic on the shifted year. */
  function YearDays(year: int): int
  {
    365 * (year + 4716) + (year + 4716) / 4 + 2 - year / 100 + (year / 100) / 4
  }

  lemma YearPartValue(year: int)
    ensures YearPart(year) == YearDays(year)
  {
    FloorHundredth(year);
    FloorQuarter(year / 100);
    FloorYears(year + 4716);
  }

  /** From one shifted year to the next the year part grows by the days of a Gregorian year:
      one more every fourth year, one fewer at a century, one more at every fourth century. */
  lemma YearPartStep(year: int)
    ensures YearPart(year) - YearPart(year - 1)
         == 365 + (if year % 4 == 0 then 1 else 0) - (if year % 100 == 0 then 1 else 0)
            + (if year % 400 == 0 then 1 else 0)
  {
    YearPartValue(year);
    YearPartValue(year - 1);
    YearDaysStep(year);
  }

  lemma YearDaysStep(year: int)
    ensures YearDays(year) - YearDays(year - 1)
         == 365 + (if year % 4 == 0 then 1 else 0) - (if year % 100 == 0 then 1 else 0)
            + (if year % 400 == 0 then 1 else 0)
  {
    var x := year + 4716;
    QuarterStep(x);
    assert x % 4 == year % 4 by {
      assert x == year + 4 * 1179;
    }
    HundredStep(year);
    if year % 100 == 0 {
      CenturyStep(year);
    } else {
      CenturyDivides(year);
      assert (year - 1) / 100 == year / 100;
    }
  }

  lemma QuarterStep(x: int)
    ensures x / 4 - (x - 1) / 4 == if x % 4 == 0 then 1 else 0
  {
    var q := x / 4;
    var r := x % 4;
    assert x == 4 * q + r;
    if r == 0 {
      assert x - 1 == 4 * (q - 1) + 3;
    } else {
      assert x - 1 == 4 * q + (r - 1);
    }
  }

  lemma HundredStep(x: int)
    ensures x / 100 - (x - 1) / 100 == if x % 100 == 0 then 1 else 0
  {
    var q := x / 100;
    var r := x % 100;
    assert x == 100 * q + r;
    if r == 0 {
      assert x - 1 == 100 * (q - 1) + 99;
    } else {
      assert x - 1 == 100 * q + (r - 1);
    }
  }

  /** At a century year the leap-century term steps exactly at multiples of 400. */
  lemma CenturyStep(year: int)
    requires year % 100 == 0
    ensures (year / 100) / 4 - ((year - 1) / 100) / 4 == if year % 400 == 0 then 1 else 0
  {
    var a := year / 100;
    HundredStep(year);
    assert (year - 1) / 100 == a - 1;
    QuarterStep(a);
    var p := a / 4;
    var t := a % 4;
    assert year == 400 * p + 100 * t;
    assert year % 400 == 100 * t;
  }

  lemma MonthPartValues()
    ensures MonthPart(3) == 122 && MonthPart(4) == 153 && MonthPart(5) == 183 && MonthPart(6) == 214
    ensures MonthPart(7) == 244 && MonthPart(8) == 275 && MonthPart(9) == 306 && MonthPart(10) == 336
    ensures MonthPart(11) == 367 && MonthPart(12) == 397 && MonthPart(13) == 428 && MonthPart(14) == 459
  {
  }

  // ---------------------------------------------------------------------------------------
  // The script's own helpers

  /** `getZodiacSign(degree)` of this script, with its own copy of the sign table: the same
      scan and the same Aries fallback as the calculator's. */
  method GetZodiacSign(degree: real) returns (sign: ZodiacSign)
    ensures sign == ZodiacSigns[SignSlot(degree)]
  {
    var signs := [
      ZodiacSign("Aries", 0, "Fire", "♈"),
      ZodiacSign("Taurus", 30, "Earth", "♉"),
      ZodiacSign("Gemini", 60, "Air", "♊"),
      ZodiacSign("Cancer", 90, "Water", "♋"),
      ZodiacSign("Leo", 120, "Fire", "♌"),
      ZodiacSign("Virgo", 150, "Earth", "♍"),
      ZodiacSign("Libra", 180, "Air", "♎"),
      ZodiacSign("Scorpio", 210, "Water", "♏"),
      ZodiacSign("Sagittarius", 240, "Fire", "♐"),
      ZodiacSign("Capricorn", 270, "Earth", "♑"),
      ZodiacSign("Aquarius", 300, "Air", "♒"),
      ZodiacSign("Pisces", 330, "Water", "♓")
    ];
    assert signs == ZodiacSigns;
    var normalizedDegree := Rem360(degree);
    for i := 0 to |signs|
      invariant FirstSlotFrom(normalizedDegree, i) == FirstSlotFrom(normalizedDegree, 0)
    {
      var nextSign := signs[(i + 1) % |signs|];
      var startDegree := signs[i].startDegree;
      var endDegree := nextSign.startDegree;
      if normalizedDegree >= startDegree as real && normalizedDegree < endDegree as real {
        return signs[i];
      }
    }
    return signs[0];
  }

  /** The Midheaven of `calculateAccurateBirthChart`: `(ascendantAngle + 90) % 360` with its
      sign from this script's lookup; it is the calculator's `calculateMidheaven` point. */
  method AccurateMidheaven(ascendantAngle: real) returns (midheaven: BirthChartCalculator.Position)
    ensures midheaven == BirthChartCalculator.CalculateMidheaven(ascendantAngle)
  {
    var mcAngle := Rem360(ascendantAngle + 90.0);
    var mcSign := GetZodiacSign(mcAngle);
    var mcDegMin := BirthChartCalculator.DegreeToDegreesMinutes(mcAngle - mcSign.startDegree as real);
    midheaven := BirthChartCalculator.Position("MC", mcSign.name, mcDegMin.degrees, mcDegMin.minutes, mcAngle, false);
    assert midheaven == BirthChartCalculator.PositionAt("MC", mcAngle);
  }

  /** The value `calculateAccurateBirthChart` returns. */
  datatype AccurateChart = AccurateChart(positions: seq<BirthChartCalculator.Position>,
                                         ascendant: BirthChartCalculator.Position,
                                         midheaven: BirthChartCalculator.Position,
                                         latitude: real, longitude: real, julianDay: real)

  /** `convertAccurateToChartFormat(birthChart)` */
  function ConvertAccurateToChartFormat(chart: AccurateChart): string
  {
    BirthChartCalculator.FormatPositions(chart.positions)
  }

  /** The script writes the same text as the calculator's `convertToChartFormat` for the same
      positions, so the D3 parser reads every writable position back. */
  lemma ConvertAccurateRoundTrip(chart: AccurateChart, other: BirthChartCalculator.BirthChart)
    requires chart.positions == other.positions
    requires forall k :: 0 <= k < |chart.positions| ==> BirthChartCalculator.Writable(chart.positions[k])
    ensures ConvertAccurateToChartFormat(chart) == BirthChartCalculator.ConvertToChartFormat(other)
    ensures D3Chart.ParseText(ConvertAccurateToChartFormat(chart))
         == Some(BirthChartCalculator.ParsedAll(chart.positions))
  {
    BirthChartCalculator.FormatRoundTrip(chart.positions);
  }
}
