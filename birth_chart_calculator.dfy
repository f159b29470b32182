/** The simplified birth-chart calculator of the D3 page: the sign lookup, the split of a
    longitude into whole degrees and minutes, the Midheaven a quarter turn past the Ascendant,
    the chart assembly with its whole-sign house cusps, and the serialiser that writes the
    chart in the line format the D3 parser reads. What the source reads off JavaScript `Date`
    objects (days elapsed since a start year, local hour and minute) is a parameter. */
module BirthChartCalculator {
  import opened Wrappers
  import opened JsNumber
  import opened JsString
  import opened Zodiac
  import ChartCommon
  import D3Chart

  // ---------------------------------------------------------------------------------------
  // Sign lookup and the degree/minute split

  /** `getZodiacSign(degree)`: scans `ZODIAC_SIGNS` for the entry whose half-open range
      `[start, next start)` holds `degree % 360`, returning early, and falls back to Aries. */
  method GetZodiacSign(degree: real) returns (sign: ZodiacSign)
    ensures sign == ZodiacSigns[SignSlot(degree)]
  {
    var normalizedDegree := Rem360(degree);
    for i := 0 to |ZodiacSigns|
      invariant FirstSlotFrom(normalizedDegree, i) == FirstSlotFrom(normalizedDegree, 0)
    {
      var nextSign := ZodiacSigns[(i + 1) % |ZodiacSigns|];
      var startDegree := ZodiacSigns[i].startDegree;
      var endDegree := nextSign.startDegree;
      if normalizedDegree >= startDegree as real && normalizedDegree < endDegree as real {
        return ZodiacSigns[i];
      }
    }
    return ZodiacSigns[0];
  }

  /** The result of `degreeToDegreesMinutes`. */
  datatype DegreesMinutes = DegreesMinutes(degrees: int, minutes: nat)

  /** `degreeToDegreesMinutes(degree)`: the whole degrees below `degree` and the whole minutes
      of the rest, so that `degree` lies in the minute `[degrees + minutes/60, + 1/60)`. */
  function DegreeToDegreesMinutes(degree: real): (r: DegreesMinutes)
    ensures r.minutes < 60
    ensures r.degrees as real + r.minutes as real / 60.0 <= degree
    ensures degree < r.degrees as real + (r.minutes + 1) as real / 60.0
  {
    var degrees := Floor(degree);
    var rest := degree - degrees as real;
    var minutes := Floor(rest * 60.0);
    assert 0 <= minutes < 60;
    DegreesMinutes(degrees, minutes)
  }

  /** The split is the only one of its kind: two numbers with a minute below 60 whose minute
      range holds `degree` are exactly what `degreeToDegreesMinutes` returns. */
  lemma DegreesMinutesUnique(degree: real, d: int, m: nat)
    requires m < 60
    requires d as real + m as real / 60.0 <= degree < d as real + (m + 1) as real / 60.0
    ensures DegreeToDegreesMinutes(degree) == DegreesMinutes(d, m)
  {
    var r := DegreeToDegreesMinutes(degree);
    assert d as real <= degree < d as real + 1.0;
    assert r.degrees == d;
    assert m as real <= (degree - d as real) * 60.0 < m as real + 1.0;
  }

  // ---------------------------------------------------------------------------------------
  // Positions

  /** One element of `positions`. The Ascendant and the Midheaven carry no `isRetrograde`,
      which every reader takes as false. */
  datatype Position = Position(planet: string, sign: string, degree: int, minute: nat,
                               angle: real, isRetrograde: bool)

  /** The record every calculator builds for a point at `longitude`: the sign from
      `getZodiacSign` and the degree and minute within that sign's range. */
  function PositionAt(name: string, longitude: real): Position
  {
    var sign := ZodiacSigns[SignSlot(longitude)];
    var dm := DegreeToDegreesMinutes(longitude - sign.startDegree as real);
    Position(name, sign.name, dm.degrees, dm.minutes, longitude, false)
  }

  /** Below 330 degrees a point is in the sign of its 30-degree slot, with a degree in 0..29
      and the sign, degree and minute placing it within one minute. */
  lemma PositionInSign(name: string, longitude: real)
    requires 0.0 <= longitude < 330.0
    ensures var p := PositionAt(name, longitude);
      && p.sign == SignNames[Floor(longitude / 30.0)]
      && 0 <= p.degree < 30
      && D3Chart.AbsoluteDegree(IndexOf(p.sign), p.degree, p.minute) <= longitude
      && longitude < D3Chart.AbsoluteDegree(IndexOf(p.sign), p.degree, p.minute) + 1.0 / 60.0
  {
    Rem360OfSmall(longitude);
    var k := SignSlot(longitude);
    assert k == Floor(longitude / 30.0);
    SignFloorChar(longitude, k);
    SlotSign(k);
    IndexOfPosition(k);
    var dm := DegreeToDegreesMinutes(longitude - (30 * k) as real);
    assert PositionAt(name, longitude) == Position(name, SignNames[k], dm.degrees, dm.minutes, longitude, false);
    assert 0 <= dm.degrees < 30;
  }

  /** Entry `k` of the sign table is the sign named `SignNames[k]`, starting at `30k`. */
  lemma SlotSign(k: nat)
    requires k < 12
    ensures ZodiacSigns[k].name == SignNames[k] && ZodiacSigns[k].startDegree == 30 * k
  {
    TableAgreesWithNames();
  }

  /** From 330 up to a full turn the Pisces test fails, so the point is written in Aries at
      330 degrees or more; the sign, degree and minute still place it within one minute. */
  lemma PositionPastPisces(name: string, longitude: real)
    requires 330.0 <= longitude < 360.0
    ensures var p := PositionAt(name, longitude);
      && p.sign == "Aries" && 330 <= p.degree < 360
      && D3Chart.AbsoluteDegree(IndexOf(p.sign), p.degree, p.minute) <= longitude
      && longitude < D3Chart.AbsoluteDegree(IndexOf(p.sign), p.degree, p.minute) + 1.0 / 60.0
  {
    TableAgreesWithNames();
    Rem360OfSmall(longitude);
    IndexOfPosition(0);
  }

  /** A negative longitude (JavaScript's `%` keeps the sign) is written in Aries with a
      negative degree. */
  lemma PositionNegative(name: string, longitude: real)
    requires longitude < 0.0
    ensures PositionAt(name, longitude).sign == "Aries"
    ensures PositionAt(name, longitude).degree < 0
  {
    TableAgreesWithNames();
    var x := Rem360(longitude);
    if x == 0.0 {
      SignFloorChar(x, 0);
    }
  }

  /** One entry of `PLANETS` or of the additional points. */
  datatype Body = Body(name: string, symbol: string, orbitalPeriod: real, startYear: int, startLongitude: real)

  const Planets: seq<Body> := [
    Body("Sun", "☉", 365.25, 2000, 280.0),
    Body("Moon", "☽", 27.32, 2000, 280.0),
    Body("Mercury", "☿", 88.0, 2000, 280.0),
    Body("Venus", "♀", 224.7, 2000, 280.0),
    Body("Mars", "♂", 687.0, 2000, 280.0),
    Body("Jupiter", "♃", 4333.0, 2000, 280.0),
    Body("Saturn", "♄", 10759.0, 2000, 280.0),
    Body("Uranus", "♅", 30685.0, 2000, 280.0),
    Body("Neptune", "♆", 60189.0, 2000, 280.0),
    Body("Pluto", "♇", 90520.0, 2000, 280.0)
  ]

  const AdditionalPoints: seq<Body> := [
    Body("Node", "☊", 6798.0, 2000, 280.0),
    Body("Lilith", "⚸", 3232.0, 2000, 280.0),
    Body("Chiron", "⚷", 5080.0, 2000, 280.0)
  ]

  /** The order in which `positions` lists its points. */
  const PositionNames: seq<string> := ["Sun", "Moon", "Mercury", "Venus", "Mars", "Jupiter", "Saturn",
                                       "Uranus", "Neptune", "Pluto", "Node", "Lilith", "Chiron", "ASC", "MC"]

  /** What the source reads off `new Date(`${date}T${time}`)`: the days from the start of a
      given year to the birth moment, and the local hour and minute. */
  datatype Clock = Clock(daysSince: int -> real, hours: nat, minutes: nat)

  /** `calculatePlanetPosition(planet, date, time)`: the start longitude advanced by the
      revolutions completed since the start year, `% 360`, never retrograde. */
  function CalculatePlanetPosition(body: Body, clock: Clock): Position
    requires body.orbitalPeriod != 0.0
  {
    var revolutions := clock.daysSince(body.startYear) / body.orbitalPeriod;
    PositionAt(body.name, Rem360(body.startLongitude + revolutions * 360.0))
  }

  /** `calculateAscendant(date, time, latitude, longitude)`: the time of day as a fraction of a
      turn, shifted by the geographic longitude, `% 360`. */
  function CalculateAscendant(clock: Clock, longitude: real): Position
  {
    var timeOfDay := clock.hours as real + clock.minutes as real / 60.0;
    var baseLongitude := timeOfDay / 24.0 * 360.0;
    PositionAt("ASC", Rem360(baseLongitude + longitude))
  }

  /** `calculateMidheaven(ascendantAngle)`: the point a quarter turn past the Ascendant. */
  function CalculateMidheaven(ascendantAngle: real): Position
  {
    PositionAt("MC", Rem360(ascendantAngle + 90.0))
  }

  /** The Midheaven of an Ascendant on the circle is on the circle, exactly 90 degrees away
      along the shorter arc. */
  lemma MidheavenSquare(ascendantAngle: real)
    requires 0.0 <= ascendantAngle < 360.0
    ensures var mc := CalculateMidheaven(ascendantAngle);
      && mc.planet == "MC" && 0.0 <= mc.angle < 360.0
      && ChartCommon.Separation(ascendantAngle, mc.angle) == 90.0
  {
    var x := ascendantAngle + 90.0;
    if x < 360.0 {
      Rem360OfSmall(x);
    } else {
      Rem360Unique(x, x - 360.0, 1);
    }
  }

  /** For a time of day on the clock and a geographic longitude in [0, 180], the Ascendant is
      on the circle; a western longitude can bring it below zero. */
  lemma AscendantRange(clock: Clock, longitude: real)
    requires clock.hours < 24 && clock.minutes < 60
    ensures longitude >= 0.0 ==> CalculateAscendant(clock, longitude).angle >= 0.0
    ensures clock.hours == 0 && clock.minutes == 0 && -360.0 < longitude < 0.0 ==>
      CalculateAscendant(clock, longitude).angle == longitude
  {
    var base := (clock.hours as real + clock.minutes as real / 60.0) / 24.0 * 360.0;
    assert base >= 0.0;
    if clock.hours == 0 && clock.minutes == 0 && -360.0 < longitude < 0.0 {
      assert base == 0.0;
      assert Trunc(longitude / 360.0) == 0;
    }
  }

  /** `PLANETS.map(...)` or `additionalPoints.map(...)` */
  function BodyPositions(bodies: seq<Body>, clock: Clock): (r: seq<Position>)
    requires forall k :: 0 <= k < |bodies| ==> bodies[k].orbitalPeriod != 0.0
  {
    seq(|bodies|, k requires 0 <= k < |bodies| => CalculatePlanetPosition(bodies[k], clock))
  }

  /** `allPositions`: the planets, the additional points, the Ascendant, the Midheaven. */
  function AllPositions(clock: Clock, longitude: real): seq<Position>
  {
    var ascendant := CalculateAscendant(clock, longitude);
    BodyPositions(Planets, clock) + BodyPositions(AdditionalPoints, clock)
      + [ascendant, CalculateMidheaven(ascendant.angle)]
  }

  /** `positions` lists the ten planets, Node, Lilith and Chiron, then the Ascendant and the
      Midheaven, none retrograde, every angle a remainder of a turn. */
  lemma PositionsOrder(clock: Clock, longitude: real)
    ensures var ps := AllPositions(clock, longitude);
      && |ps| == 15
      && (forall k :: 0 <= k < 15 ==> ps[k].planet == PositionNames[k] && !ps[k].isRetrograde)
      && (forall k :: 0 <= k < 15 ==> -360.0 < ps[k].angle < 360.0)
      && ps[13] == CalculateAscendant(clock, longitude)
      && ps[14] == CalculateMidheaven(ps[13].angle)
  {
    var ps := AllPositions(clock, longitude);
    var planets, points := BodyPositions(Planets, clock), BodyPositions(AdditionalPoints, clock);
    var asc := CalculateAscendant(clock, longitude);
    var front := planets + points;
    assert ps == front + [asc, CalculateMidheaven(asc.angle)];
    BodyPositionsFields(Planets, clock);
    BodyPositionsFields(AdditionalPoints, clock);
    BodyNamesInOrder();
    forall k | 0 <= k < 13
      ensures ps[k].planet == PositionNames[k] && !ps[k].isRetrograde && -360.0 < ps[k].angle < 360.0
    {
      assert ps[k] == front[k];
      if k < 10 {
        assert front[k] == planets[k];
      } else {
        assert front[k] == points[k - 10];
      }
    }
  }

  /** The bodies' names are the first thirteen of `PositionNames`. */
  lemma BodyNamesInOrder()
    ensures |Planets| == 10 && |AdditionalPoints| == 3
    ensures forall k :: 0 <= k < 10 ==> Planets[k].name == PositionNames[k]
    ensures forall k :: 0 <= k < 3 ==> AdditionalPoints[k].name == PositionNames[10 + k]
  {
  }

  /** Every computed body is named after its body, direct, and on the circle. */
  lemma BodyPositionsFields(bodies: seq<Body>, clock: Clock)
    requires forall k :: 0 <= k < |bodies| ==> bodies[k].orbitalPeriod != 0.0
    ensures |BodyPositions(bodies, clock)| == |bodies|
    ensures forall k :: 0 <= k < |bodies| ==>
      BodyPositions(bodies, clock)[k].planet == bodies[k].name && !BodyPositions(bodies, clock)[k].isRetrograde
      && -360.0 < BodyPositions(bodies, clock)[k].angle < 360.0
  {
  }

  // ---------------------------------------------------------------------------------------
  // The chart

  /** The fields of `birthData`: `date` and `time` may be missing or empty, `latitude` and
      `longitude` missing. */
  datatype BirthData = BirthData(date: Option<string>, time: Option<string>,
                                 latitude: Option<real>, longitude: Option<real>)

  /** The validation: `date` and `time` are truthy and neither coordinate is undefined. */
  predicate Complete(data: BirthData)
  {
    data.date.Some? && data.date.value != "" && data.time.Some? && data.time.value != ""
    && data.latitude.Some? && data.longitude.Some?
  }

  /** One element of `houseCusps`. */
  datatype HouseCusp = HouseCusp(house: int, sign: string, degree: int, minute: nat, angle: real)

  /** The whole-sign cusps for an Ascendant: cusp `k` is house `k + 1`, `30k` degrees on. */
  function HouseCusps(ascendantAngle: real): seq<HouseCusp>
  {
    seq(12, k requires 0 <= k < 12 => HouseCuspAt(ascendantAngle, k))
  }

  /** Cusp `k`: house `k + 1` at `(asc + 30k) % 360`, with that angle's sign, degree and minute. */
  function HouseCuspAt(ascendantAngle: real, k: nat): HouseCusp
  {
    var p := PositionAt("", Rem360(ascendantAngle + (k * 30) as real));
    HouseCusp(k + 1, p.sign, p.degree, p.minute, p.angle)
  }

  /** There are twelve cusps, numbered 1 to 12; cusp `k` is `30k` degrees past the Ascendant
      modulo a turn, on the circle when the Ascendant is; the first is the Ascendant itself. */
  lemma HouseCuspsShape(ascendantAngle: real, k: nat)
    requires k < 12
    ensures var cs := HouseCusps(ascendantAngle);
      && |cs| == 12 && cs[k].house == k + 1
      && (0.0 <= ascendantAngle < 360.0 ==> 0.0 <= cs[k].angle < 360.0)
      && (0.0 <= ascendantAngle < 360.0 - 30.0 * k as real ==> cs[k].angle == ascendantAngle + 30.0 * k as real)
  {
    var x := ascendantAngle + (k * 30) as real;
    if 0.0 <= x < 360.0 {
      Rem360OfSmall(x);
    }
  }

  /** Each cusp's sign, degree and minute are the ones its angle is written with. */
  lemma HouseCuspSign(ascendantAngle: real, k: nat)
    requires k < 12
    ensures var c := HouseCusps(ascendantAngle)[k];
      var p := PositionAt("", c.angle);
      c.sign == p.sign && c.degree == p.degree && c.minute == p.minute
  {
  }

  /** The value `calculateBirthChart` returns. */
  datatype BirthChart = BirthChart(positions: seq<Position>, houseCusps: seq<HouseCusp>,
                                   ascendant: Position, midheaven: Position,
                                   latitude: real, longitude: real)

  /** `calculateBirthChart(birthData)`: `None` is the thrown `Missing required birth data
      fields`; otherwise the positions in their fixed order and the twelve cusps built by the
      loop from the Ascendant. */
  method CalculateBirthChart(data: BirthData, clock: Clock) returns (r: Option<BirthChart>)
    ensures r.None? <==> !Complete(data)
    ensures r.Some? ==>
      && r.value.positions == AllPositions(clock, data.longitude.value)
      && r.value.ascendant == CalculateAscendant(clock, data.longitude.value)
      && r.value.midheaven == CalculateMidheaven(r.value.ascendant.angle)
      && r.value.houseCusps == HouseCusps(r.value.ascendant.angle)
      && r.value.latitude == data.latitude.value && r.value.longitude == data.longitude.value
  {
    if !Complete(data) {
      return None;
    }
    var longitude := data.longitude.value;
    var ascendant := CalculateAscendant(clock, longitude);
    var midheaven := CalculateMidheaven(ascendant.angle);
    var allPositions := BodyPositions(Planets, clock) + BodyPositions(AdditionalPoints, clock)
                        + [ascendant, midheaven];
    var houseCusps := GenerateHouseCusps(ascendant.angle);
    return Some(BirthChart(allPositions, houseCusps, ascendant, midheaven, data.latitude.value, longitude));
  }

  /** The `for` loop of `calculateBirthChart` that pushes the twelve cusps. */
  method GenerateHouseCusps(ascendantAngle: real) returns (houseCusps: seq<HouseCusp>)
    ensures houseCusps == HouseCusps(ascendantAngle)
  {
    houseCusps := [];
    for i := 0 to 12
      invariant houseCusps == HouseCusps(ascendantAngle)[..i]
    {
      var houseAngle := Rem360(ascendantAngle + (i * 30) as real);
      var sign := GetZodiacSign(houseAngle);
      var dm := DegreeToDegreesMinutes(houseAngle - sign.startDegree as real);
      houseCusps := houseCusps + [HouseCusp(i + 1, sign.name, dm.degrees, dm.minutes, houseAngle)];
    }
    assert HouseCusps(ascendantAngle)[..12] == HouseCusps(ascendantAngle);
  }

  // ---------------------------------------------------------------------------------------
  // Serialisation for the D3 chart

  /** `${pos.planet},${pos.sign},${pos.degree}°${MM}'` with the minute padded to two digits and
      `,R` for a retrograde point. */
  function ChartLine(p: Position): string
  {
    ChartCommon.LineOf(p.planet, p.sign, DegreeToken(p), p.isRetrograde)
  }

  function ChartLines(ps: seq<Position>): (r: seq<string>)
    ensures |r| == |ps|
  {
    seq(|ps|, k requires 0 <= k < |ps| => ChartLine(ps[k]))
  }

  /** `positions.map(...).join('\n')` */
  function FormatPositions(ps: seq<Position>): string
  {
    Join(ChartLines(ps), '\n')
  }

  /** `convertToChartFormat(birthChart)` */
  function ConvertToChartFormat(chart: BirthChart): string
  {
    FormatPositions(chart.positions)
  }

  /** A name the D3 parser reads back as written: not empty, no comma or line break, and no
      white space at either end. */
  predicate PlainName(name: string)
  {
    |name| > 0 && !IsWhite(name[0]) && !IsWhite(name[|name| - 1]) && ',' !in name && '\n' !in name
  }

  /** A position whose line the D3 parser keeps: a plain name, a sign name, a degree that is
      written without a minus sign. */
  predicate Writable(p: Position)
  {
    PlainName(p.planet) && p.sign in SignNames && p.degree >= 0
  }

  /** The record the D3 parser makes of a position's line. */
  function Parsed(p: Position): D3Chart.Position
    requires Writable(p)
  {
    var angle := D3Chart.AbsoluteDegree(IndexOf(p.sign), p.degree, p.minute);
    D3Chart.Position(p.planet, p.sign, p.degree, p.minute, p.isRetrograde, angle, Some(angle), None)
  }

  function ParsedAll(ps: seq<Position>): (r: seq<D3Chart.Position>)
    requires forall k :: 0 <= k < |ps| ==> Writable(ps[k])
    ensures |r| == |ps|
    ensures forall k :: 0 <= k < |ps| ==> r[k] == Parsed(ps[k])
  {
    seq(|ps|, k requires 0 <= k < |ps| => Parsed(ps[k]))
  }

  lemma DigitsFree(s: string, c: char)
    requires AllDigits(s) && !IsDigit(c)
    ensures c !in s
  {
    forall i | 0 <= i < |s| ensures s[i] != c { assert IsDigit(s[i]); }
  }

  /** The line of a writable position is kept by the D3 parser with its name, sign, degree,
      minute and retrograde flag. */
  lemma ChartLineParses(p: Position)
    requires Writable(p)
    ensures D3Chart.ParseLine(ChartLine(p)) == D3Chart.Kept(Parsed(p))
  {
    var dd := NatToString(p.degree);
    var mm := PadStart(NatToString(p.minute), 2, '0');
    PaddedNatValue(p.minute);
    assert ChartLine(p) == ChartCommon.LineOf(p.planet, p.sign, ChartCommon.TokenOf(dd, mm), p.isRetrograde);
    D3Chart.ParseLineOf(p.planet, p.sign, dd, mm, p.isRetrograde);
  }

  /** The line of a writable position holds no line break, begins with the name and ends with
      the apostrophe or the `R`, so trimming leaves it as it is. */
  lemma ChartLineShape(p: Position)
    requires Writable(p)
    ensures var line := ChartLine(p);
      && |line| > 0 && '\n' !in line && line[0] == p.planet[0]
      && !IsWhite(line[|line| - 1]) && Trim(line) == line
  {
    var dd := NatToString(p.degree);
    var mm := PadStart(NatToString(p.minute), 2, '0');
    PaddedNatValue(p.minute);
    TokenShape(dd, mm);
    SignNoBreak(p.sign);
    var line := ChartLine(p);
    assert line == ChartCommon.LineOf(p.planet, p.sign, ChartCommon.TokenOf(dd, mm), p.isRetrograde);
    LineOfShape(p.planet, p.sign, ChartCommon.TokenOf(dd, mm), p.isRetrograde);
    TrimNoop(line);
  }

  lemma TokenShape(dd: string, mm: string)
    requires AllDigits(dd) && AllDigits(mm)
    ensures var token := ChartCommon.TokenOf(dd, mm);
      |token| > 0 && '\n' !in token && token[|token| - 1] == '\''
  {
    DigitsFree(dd, '\n');
    DigitsFree(mm, '\n');
    var token := ChartCommon.TokenOf(dd, mm);
    assert token == dd + "°" + mm + "'";
  }

  lemma LineOfShape(name: string, sign: string, token: string, retro: bool)
    requires |name| > 0 && '\n' !in name && '\n' !in sign && '\n' !in token
    requires |token| > 0 && token[|token| - 1] == '\''
    ensures var line := ChartCommon.LineOf(name, sign, token, retro);
      |line| > 0 && '\n' !in line && line[0] == name[0] && !IsWhite(line[|line| - 1])
  {
    var line := ChartCommon.LineOf(name, sign, token, retro);
    var suffix := if retro then ",R" else "";
    assert line == name + ("," + sign + "," + token + suffix);
    assert '\n' !in suffix;
  }

  lemma SignNoBreak(sign: string)
    requires sign in SignNames
    ensures '\n' !in sign
  {
  }

  lemma {:induction false} JoinEnds(parts: seq<string>, sep: char)
    requires |parts| >= 1 && forall k :: 0 <= k < |parts| ==> |parts[k]| > 0
    ensures var s := Join(parts, sep);
      |s| > 0 && s[0] == parts[0][0] && s[|s| - 1] == parts[|parts| - 1][|parts[|parts| - 1]| - 1]
  {
    if |parts| > 1 {
      JoinEnds(parts[1..], sep);
    }
  }

  lemma ParseLinesAll(ps: seq<Position>)
    requires forall k :: 0 <= k < |ps| ==> Writable(ps[k])
    ensures D3Chart.ParseLines(ChartLines(ps)) == Some(ParsedAll(ps))
  {
    var lines := ChartLines(ps);
    var rs := ParsedAll(ps);
    forall k | 0 <= k < |ps|
      ensures Trim(lines[k]) != "" && D3Chart.ParseLine(lines[k]) == D3Chart.Kept(rs[k])
    {
      ChartLineParses(ps[k]);
      ChartLineShape(ps[k]);
    }
    D3Chart.PipelineKept(D3Chart.ParseLine, lines, rs);
  }

  /** The serialised positions, read by the D3 parser, come back in order as the records of
      their lines: every line is kept, with its name, sign, degree, minute and flag. */
  lemma FormatRoundTrip(ps: seq<Position>)
    requires forall k :: 0 <= k < |ps| ==> Writable(ps[k])
    ensures D3Chart.ParseText(FormatPositions(ps)) == Some(ParsedAll(ps))
  {
    if ps == [] {
      assert FormatPositions(ps) == "";
      D3Chart.ParseBlankText(FormatPositions(ps));
    } else {
      var lines := ChartLines(ps);
      forall k | 0 <= k < |ps| ensures CleanLine(lines[k]) {
        ChartLineShape(ps[k]);
      }
      ParseLinesAll(ps);
      JoinedText(lines);
      assert FormatPositions(ps) == Join(lines, '\n');
    }
  }

  /** Not empty, no line break, no white space at either end. */
  predicate CleanLine(line: string)
  {
    |line| > 0 && '\n' !in line && !IsWhite(line[0]) && !IsWhite(line[|line| - 1])
  }

  /** Clean lines joined by line breaks split back into themselves once trimmed. */
  lemma JoinedText(lines: seq<string>)
    requires |lines| >= 1 && forall k :: 0 <= k < |lines| ==> CleanLine(lines[k])
    ensures Split(Trim(Join(lines, '\n')), '\n') == lines
  {
    var text := Join(lines, '\n');
    JoinEnds(lines, '\n');
    TrimNoop(text);
    SplitJoin(lines, '\n');
  }

  /** A point at a negative longitude is written with a minus sign, which the degree pattern
      refuses: the D3 parser drops its line. */
  lemma NegativeLineDropped(p: Position)
    requires PlainName(p.planet) && p.sign in SignNames && p.degree < 0
    ensures D3Chart.ParseLine(ChartLine(p)) == D3Chart.Dropped
  {
    NegativeToken(p);
    RefusedTokenDropped(p.planet, p.sign, DegreeToken(p), p.isRetrograde);
  }

  /** The degree field of a position's line. */
  function DegreeToken(p: Position): string
  {
    ChartCommon.TokenOf(IntToString(p.degree), PadStart(NatToString(p.minute), 2, '0'))
  }

  /** The degree field of a negative degree holds no comma, is trimmed, and is refused. */
  lemma NegativeToken(p: Position)
    requires p.degree < 0
    ensures ',' !in DegreeToken(p) && Trim(DegreeToken(p)) == DegreeToken(p)
    ensures MatchDegreeMinute(DegreeToken(p)) == None
  {
    var digits := NatToString(-p.degree);
    var mm := PadStart(NatToString(p.minute), 2, '0');
    PaddedNatValue(p.minute);
    NegativeTokenOf(p);
    NegativeTokenShape(digits, mm);
    NegativeTokenRefused(digits, mm);
  }

  lemma NegativeTokenOf(p: Position)
    requires p.degree < 0
    ensures DegreeToken(p) == ChartCommon.TokenOf("-" + NatToString(-p.degree), PadStart(NatToString(p.minute), 2, '0'))
  {
    NegativeText(p.degree);
  }

  lemma NegativeText(i: int)
    requires i < 0
    ensures IntToString(i) == "-" + NatToString(-i)
  {
  }

  lemma NegativeTokenShape(digits: string, mm: string)
    requires AllDigits(digits) && AllDigits(mm)
    ensures var token := ChartCommon.TokenOf("-" + digits, mm);
      ',' !in token && Trim(token) == token
  {
    var token := ChartCommon.TokenOf("-" + digits, mm);
    DigitsFree(digits, ',');
    DigitsFree(mm, ',');
    assert token == "-" + digits + "°" + mm + "'";
    assert token[0] == '-' && token[|token| - 1] == '\'';
    TrimNoop(token);
  }

  /** A line whose degree field the pattern refuses is dropped, whatever its other fields. */
  lemma RefusedTokenDropped(name: string, sign: string, token: string, retro: bool)
    requires PlainName(name) && sign in SignNames
    requires ',' !in token && Trim(token) == token && MatchDegreeMinute(token) == None
    ensures D3Chart.ParseLine(ChartCommon.LineOf(name, sign, token, retro)) == D3Chart.Dropped
  {
    D3Chart.SignNameShape(sign);
    ChartCommon.LineSplits(name, sign, token, retro);
    var parts := [name, sign, token] + (if retro then ["R"] else []);
    assert parts[2] == token;
    var r := D3Chart.ParseFields(parts);
    assert !r.Throws? && !r.Kept?;
  }

  lemma NegativeTokenRefused(d: string, m: string)
    requires AllDigits(d) && AllDigits(m)
    ensures MatchDegreeMinute(ChartCommon.TokenOf("-" + d, m)) == None
  {
    var s := ChartCommon.TokenOf("-" + d, m);
    var body := s[..|s| - 1];
    DigitsFree(d, '°');
    assert body == ("-" + d) + ['°'] + m;
    IndexAfterFree("-" + d, '°', m);
    var k := IndexOfChar(body, '°');
    assert body[..k] == "-" + d;
    assert !IsDigit(body[..k][0]);
  }

  /** The calculator's chart, serialised and parsed by the D3 chart, when every point is on
      the circle: all fifteen lines are kept in order, each name and sign as calculated, and
      each parsed angle at most one minute below the calculated longitude. */
  lemma ChartRoundTrip(clock: Clock, longitude: real)
    requires forall k :: 0 <= k < 15 ==> AllPositions(clock, longitude)[k].angle >= 0.0
    ensures var ps := AllPositions(clock, longitude);
      var parsed := D3Chart.ParseText(FormatPositions(ps));
      && parsed.Some? && |parsed.value| == 15
      && forall k :: 0 <= k < 15 ==>
           && parsed.value[k].planet == PositionNames[k] && parsed.value[k].sign == ps[k].sign
           && parsed.value[k].angle <= ps[k].angle < parsed.value[k].angle + 1.0 / 60.0
  {
    var ps := AllPositions(clock, longitude);
    PositionsOrder(clock, longitude);
    forall k | 0 <= k < 15
      ensures Writable(ps[k])
      ensures Parsed(ps[k]).angle <= ps[k].angle < Parsed(ps[k]).angle + 1.0 / 60.0
    {
      NamesPlain(k);
      PositionOnCircle(ps[k]);
    }
    FormatRoundTrip(ps);
  }

  lemma NamesPlain(k: nat)
    requires k < 15
    ensures PlainName(PositionNames[k])
  {
  }

  lemma PositionOnCircle(p: Position)
    requires p == PositionAt(p.planet, p.angle) && 0.0 <= p.angle < 360.0 && PlainName(p.planet)
    ensures Writable(p)
    ensures Parsed(p).angle <= p.angle < Parsed(p).angle + 1.0 / 60.0
  {
    assert SignNames[0] == "Aries";
    if p.angle < 330.0 {
      PositionInSign(p.planet, p.angle);
    } else {
      PositionPastPisces(p.planet, p.angle);
    }
  }
}
