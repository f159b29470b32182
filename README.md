# astro-chart in Dafny

A Dafny model of the discrete core of astro-chart, a natal-chart page that draws an astrological
wheel twice: once with D3 (SVG) and once with p5 (canvas). Two simplified ephemeris scripts feed
the D3 page. This model covers:

- **The D3 pipeline (`D3Chart`).**
  - `parseDataAndGenerateHouses` reads the `Name,Sign,DD°MM'[,R]` text and validates each line.
  - It derives the twelve whole-sign house cusps from the Ascendant and adds the Descendant and
    the Imum Coeli when they are missing.
  - It numbers the house of every body.
  - `calculateAspects` classifies each pair of core bodies against the six-entry aspect table;
    the first match wins.
  - `findClusters` and the layout part of `drawPlanets` fan clustered glyphs out 9 degrees apart.
  - The `isAxis` test of `drawHouseLinesAndNumbers` marks the cusps that carry an axis point.
- **The D3 tooltip texts (`D3Interpretations`):** `getPlanetInterpretation` and
  `getAspectInterpretation`. The interpretation tables are a parameter.
- **The p5 pipeline (`P5Chart`),** modelled as it is written, with its own rules:
  - the parser validates nothing;
  - the cusps are appended without being cleared;
  - `DSC` and `IC` are bare name/degree records;
  - the aspect table has eleven entries;
  - a lone glyph's visual degree is reset;
  - `handleInteractivity` draws a box for every body strictly closer than 15 pixels to the
    pointer. The hit radius is 290 for the axis points and 270 otherwise.
- **The calculator (`BirthChartCalculator`),** from `birth-chart-calculator.js`:
  - `getZodiacSign` (a search loop with an early return and an Aries fallback);
  - `degreeToDegreesMinutes`;
  - the Midheaven;
  - the validation, the position list and the house-cusp loop of `calculateBirthChart`;
  - `convertToChartFormat`, together with a serialise-then-parse round trip through the D3
    parser.
- **The ephemeris helpers (`AccurateEphemeris`),** from `accurate-ephemeris.js`:
  - `julianDay`, with its calendar properties proved: J2000.0 is day 2451545.0, and consecutive
    month starts are exactly the Gregorian month lengths apart, leap years included;
  - its copy of `getZodiacSign`;
  - the Midheaven formula;
  - `convertAccurateToChartFormat`.

  Its `degreeToDegreesMinutes` has the same body as the calculator's and is modelled by
  `BirthChartCalculator.DegreeToDegreesMinutes`.

Shared pieces:

- `JsNumber` holds JavaScript's truncating `%` on reals and `Math.floor`.
- `JsString` holds `trim`, `split`/`join`, `padStart`, `parseInt`, the degree pattern
  `^(\d+)°(\d+)'$`, `toLowerCase` and `toFixed(1)`.
- `Zodiac` holds the sign names and the sign table.
- `ChartCommon` holds what the two renderers share. That is the shortest-arc separation, the
  first-match table scan, the screen angle `180 - (visualDegree - ascDegree)`, the stable sort (`SortByStable`)
  with single-linkage clustering under the strict 12-degree threshold, and the 9-degree fan.

State that the source keeps in module-level variables (`chartData`, `houseCusps`, `aspects`) is
held in the fields of a `Chart` class, one per renderer. The methods that change it are proved
against specification functions (`Derive`, `AspectsOf`, `LaidOut`, `HoverBoxes`). The lemmas
then prove what the source promises about those functions.

The serialiser and the D3 parser agree on every position with a non-negative degree. A position
whose degree is negative is written as `-D°MM'`. The D3 pattern refuses that token, so the
parser silently drops the line (`BirthChartCalculator.NegativeLineDropped`). The calculator can
produce such positions, because JavaScript's `%` keeps the sign of a negative longitude.

## Model

| member | source | states |
|---|---|---|
| JsNumber.Floor | d3-chart/birth-chart-calculator.js:51 | `Math.floor` is the integer `r` with `r <= x < r + 1` |
| JsNumber.Trunc | d3-chart/d3chart.js:165 | truncation toward zero: the largest integer at most `x` for `x >= 0`, the smallest at least `x` below zero |
| JsNumber.Rem360 | d3-chart/d3chart.js:165 | `x % 360` differs from `x` by whole turns and lies in [0, 360) for `x >= 0` and in (-360, 0] below zero |
| JsNumber.Rem360OfSmall | d3-chart/d3chart.js:165 | an angle already in [0, 360) is unchanged by `% 360` |
| JsNumber.Rem360AddTurns | d3-chart/d3chart.js:165 | adding whole turns to a non-negative angle does not change its remainder |
| JsNumber.Rem360Unique | d3-chart/d3chart.js:165 | the remainder is the unique value in [0, 360) that differs from `x` by whole turns |
| JsNumber.SignFloorChar | d3-chart/d3chart.js:181 | `Math.floor(x / 30) == k` exactly when `30k <= x < 30k + 30` |
| JsString.Trim | d3-chart/d3chart.js:132 | the trimmed string neither starts nor ends with white space |
| JsString.TrimNoop | d3-chart/d3chart.js:134-136 | trimming a string without white space at either end gives it back |
| JsString.TrimEmptyIffAllWhite | d3-chart/d3chart.js:132 | a line is filtered out as blank exactly when every character is white space |
| JsString.Split | d3-chart/d3chart.js:133 | `split` gives at least one piece, none containing the separator, and joining the pieces gives the string back |
| JsString.SplitJoin | d3-chart/birth-chart-calculator.js:187-190 | splitting a join of separator-free pieces recovers the pieces |
| JsString.RemoveFirst | p5chart.js:136 | `replace('’', '')` removes one occurrence of the character when there is one and changes nothing otherwise |
| JsString.NatToString | d3-chart/birth-chart-calculator.js:189 | a number's decimal text is non-empty digits without a leading zero that read back as the number |
| JsString.IntToString | d3-chart/birth-chart-calculator.js:189 | a negative number's text is `-` followed by its magnitude's digits |
| JsString.PadStart | d3-chart/birth-chart-calculator.js:189 | `padStart` keeps the string as the suffix, fills the front with the fill character and reaches the width |
| JsString.PaddedNatValue | d3-chart/birth-chart-calculator.js:189 | the zero-padded minute is all digits and reads back as the minute |
| JsString.ParseInt | p5chart.js:140 | `parseInt` yields a number only when the text has a digit |
| JsString.ParseIntOfDigits | p5chart.js:140 | `parseInt` of a digit run followed by a non-digit is the run's value |
| JsString.MatchDegreeMinute | d3-chart/d3chart.js:139 | a match means the text is digits, `°`, digits, `'`, and the groups are those digit runs' values |
| JsString.MatchDegreeMinuteOf | d3-chart/d3chart.js:139 | every text of that shape matches, with the two runs' values |
| JsString.ToLowerAscii | d3-chart/d3chart.js:606 | each upper-case ASCII letter becomes its lower-case letter and every other character is kept |
| JsString.TenthsNearest | d3-chart/d3chart.js:590 | `toFixed(1)` picks the tenth nearest the value, the larger of two equally near |
| JsString.TenthsTextShape | d3-chart/d3chart.js:590 | the `toFixed(1)` text is digits, a point and one digit that read back as the chosen number of tenths |
| JsString.ToFixed1 | d3-chart/d3chart.js:589 | `toFixed(1)`: a minus sign for a negative number, then the digits of the magnitude's nearest tenth with a point before the last digit; `TenthsNearest` and `TenthsTextShape` prove what they read back as |
| Zodiac.TableAgreesWithNames | d3-chart/birth-chart-calculator.js:5-18 | the sign table lists the twelve names of `zodiacSigns` in order, sign `i` starting at `30i` |
| Zodiac.SignNamesDistinct | d3-chart/d3chart.js:29 | the twelve sign names are pairwise different |
| Zodiac.SignNamesLetters | d3-chart/d3chart.js:29 | every sign name is a non-empty run of letters |
| Zodiac.IndexOf | d3-chart/d3chart.js:146 | `indexOf` is -1 exactly for a name that is not a sign, and otherwise points at that name |
| Zodiac.IndexOfPosition | d3-chart/d3chart.js:146 | the index of the `i`-th sign name is `i` |
| Zodiac.SignSlot | d3-chart/birth-chart-calculator.js:35-47 | the sign chosen is `floor((d % 360) / 30)` for remainders in [0, 330), and Aries for remainders below zero or in [330, 360) |
| Zodiac.SlotScan | d3-chart/birth-chart-calculator.js:37-45 | the search from sign `i` on finds the remainder's sign, or falls back to Aries |
| Zodiac.InSlotRange | d3-chart/birth-chart-calculator.js:38-42 | the test for sign `i < 11` holds exactly on [30i, 30i + 30), and the Pisces test `330 <= x < 0` never holds |
| Zodiac.PiscesNeverSelected | d3-chart/birth-chart-calculator.js:38-46 | `getZodiacSign` never returns Pisces |
| ChartCommon.Separation | d3-chart/d3chart.js:202-203 | the folded separation is the plain difference when that is at most 180, and lies in [0, 180] for angles on the circle |
| ChartCommon.SeparationSymmetric | d3-chart/d3chart.js:202-203 | the separation does not depend on the order of the pair |
| ChartCommon.FirstMatchFromSpec | d3-chart/d3chart.js:206-223 | the scan from entry `i` on returns a matching entry with no match before it, and nothing exactly when none matches |
| ChartCommon.FirstMatchSpec | d3-chart/d3chart.js:206-223 | the chosen entry is the first in table order whose orb holds the separation; none is chosen exactly when no entry matches |
| ChartCommon.FirstMatchIsOnlyMatch | p5chart.js:62-75 | in a table whose orb intervals are disjoint, any matching entry is the one the scan chooses |
| ChartCommon.ScreenAngle | p5chart.js:326 | the Ascendant is drawn at 180 degrees and its opposite point at 0 |
| ChartCommon.ScreenAngleInverse | p5chart.js:365 | the screen angle determines the visual degree, and it decreases as the visual degree grows |
| ChartCommon.LineOf | d3-chart/birth-chart-calculator.js:188-189 | the template `` `${planet},${sign},${token}${retrograde}` `` with `,R` exactly for a retrograde body; `LineSplits` proves it splits back into its fields |
| ChartCommon.LineSplits | d3-chart/birth-chart-calculator.js:189 | a serialised line splits at its commas back into name, sign, degree token and, when retrograde, `R` |
| ChartCommon.CuspsShape | d3-chart/d3chart.js:163-166 | there are twelve cusps; cusp `k` is house `k + 1` at `(asc + 30k) % 360`, on the circle for a non-negative Ascendant |
| ChartCommon.Insert | d3-chart/d3chart.js:521 | inserting into a sorted list keeps it sorted and adds exactly the one element |
| ChartCommon.SortBy | d3-chart/d3chart.js:521 | the sorted copy is ordered by the key and is a permutation of the input |
| ChartCommon.SortByStable | d3-chart/d3chart.js:521 | the sort is stable: for every key value, the elements with that key come out in their input order |
| ChartCommon.ClustersOf | d3-chart/d3chart.js:519-520 | there are clusters exactly when there are bodies |
| ChartCommon.ClustersOfShape | d3-chart/d3chart.js:519-531 | the clusters are non-empty, concatenate to the sorted list, have neighbours closer than 12 inside, and are at least 12 apart between |
| ChartCommon.ClustersOfSnoc | d3-chart/d3chart.js:523-529 | the next body joins the last cluster when closer than 12 to its predecessor and opens a cluster otherwise |
| ChartCommon.FindClusters | d3-chart/d3chart.js:519-531 | `findClusters` returns the clustering of its input sorted by degree |
| ChartCommon.ClusterSorted | d3-chart/d3chart.js:522-530 | the loop that pushes into `clusters` computes the clustering of the sorted list |
| ChartCommon.FanDegreeSpacing | d3-chart/d3chart.js:435-442 | member `i` of a cluster of `N > 1` goes to `avg - (N-1)*9/2 + 9i`: neighbours are 9 apart, symmetric about the mean |
| ChartCommon.FanDegreeMean | d3-chart/d3chart.js:436-437 | the fanned degrees of a cluster average to the cluster's mean degree |
| ChartCommon.FanDegree | d3-chart/d3chart.js:435-442 | the fan degree of member `i` of a cluster of `N > 1` around the mean `avg`; `FanDegreeSpacing`, `FanDegreeMean` and `FanValue` prove its spacing, its mean and its agreement with the source's expression |
| D3Chart.AspectDefsDisjoint | d3-chart/d3chart.js:47-54 | the six-entry table's orb intervals are pairwise disjoint |
| D3Chart.ParseFields | d3-chart/d3chart.js:133-158 | a line throws exactly when it has fewer than three fields. It is kept exactly when its trimmed sign is a sign name and its trimmed token matches the pattern, and then carries the trimmed name, the sign, the groups' values, `angle = signIndex*30 + degree + minute/60` with the visual degree equal to it, and `R` exactly when a fourth field trims to `R` |
| D3Chart.ParseLine | d3-chart/d3chart.js:133-158 | the `map` callback on one line: it throws, drops the line (`null`) or keeps a record; `ParseFields` states each outcome's condition and the record's fields |
| D3Chart.PipelineSpec | d3-chart/d3chart.js:132-158 | blank lines are skipped; the parse fails exactly when some non-blank line throws; every record returned comes from a kept line |
| D3Chart.PipelineKept | d3-chart/d3chart.js:132-158 | when every line is non-blank and kept, the parse returns the kept records in line order |
| D3Chart.ParseLinesSpec | d3-chart/d3chart.js:132-158 | the parse fails exactly when a non-blank line has fewer than three comma fields, and every record returned is freshly parsed with the visual degree equal to the angle and no house |
| D3Chart.ParseText | d3-chart/d3chart.js:130-158 | `parseDataAndGenerateHouses`'s list from the whole text: the split at line breaks through the pipeline with `ParseLine`; `PipelineSpec`, `PipelineKept` and `ParseLinesSpec` prove its failure condition and its records |
| D3Chart.ParseBlankText | d3-chart/d3chart.js:130-132 | white-space-only text parses to no positions |
| D3Chart.TokenShape | d3-chart/d3chart.js:136-139 | a `D°M'` token has no comma, is already trimmed and matches with its digits' values |
| D3Chart.ParseFieldsOf | d3-chart/d3chart.js:133-158 | fields with a sign name and a matching token give exactly the record with those values |
| D3Chart.ParseLineOf | d3-chart/d3chart.js:133-158 | a line `Name,Sign,D°M'[,R]` with a valid sign parses to exactly those fields and the derived angle |
| D3Chart.SignNameShape | d3-chart/d3chart.js:135-140 | a sign name has no comma and no white space at either end, so trimming keeps it |
| D3Chart.ParseNoRangeCheck | d3-chart/d3chart.js:139-147 | `Pisces` at `45°75'` is kept, with angle 376.25: neither degree nor minute is range-checked |
| D3Chart.FindPlanet | d3-chart/d3chart.js:160 | `find` returns the first position with the name, and nothing exactly when none has it |
| D3Chart.SignAt | d3-chart/d3chart.js:171 | `zodiacSigns[Math.floor(angle / 30)]` is a sign name for an angle on the circle |
| D3Chart.OppositePoint | d3-chart/d3chart.js:168-175 | the synthesised point lies on the circle, 180 degrees from its source, without a house |
| D3Chart.HouseOfRange | d3-chart/d3chart.js:179-185 | the Ascendant is in house 1, and for angles on the circle every house is in 1..12, the sign offset from the Ascendant's sign modulo 12 |
| D3Chart.HouseBeyondTwelve | d3-chart/d3chart.js:179-185 | an unchecked angle of 376.25 with the Ascendant at 0 gets house 13 |
| D3Chart.HouseOf | d3-chart/d3chart.js:179-185 | the whole-sign house `floor(angle/30) - floor(asc/30) + 1`, plus 12 when not positive; `HouseOfRange` proves the Ascendant is in house 1 and every house of an angle on the circle is in 1..12 |
| D3Chart.WithAxes | d3-chart/d3chart.js:168-176 | pushing the axis points keeps the parsed positions as a prefix and adds at most two non-negative points |
| D3Chart.FindSamePlanets | d3-chart/d3chart.js:160 | `find` by name sees only the names |
| D3Chart.AssignHousesShape | d3-chart/d3chart.js:179-185 | the `forEach` sets each position's house and changes nothing else |
| D3Chart.WithAxesShape | d3-chart/d3chart.js:168-176 | `DSC` is always present afterwards; `IC` is present exactly when `MC` or `IC` was |
| D3Chart.DeriveShape | d3-chart/d3chart.js:160-185 | with an Ascendant, the parsed positions are kept up to their houses. Every position gets its whole-sign house from the Ascendant, which is in house 1, `DSC` is present, and `IC` is present exactly when `MC` or `IC` was |
| D3Chart.Derive | d3-chart/d3chart.js:160-185 | the cusps' Ascendant, the pushed `IC`/`DSC` and the houses as one value; `DeriveShape` states what it keeps and adds |
| D3Chart.PairAspect | d3-chart/d3chart.js:194-223 | an aspect found for `i < j` records exactly that pair |
| D3Chart.PairAspectShape | d3-chart/d3chart.js:194-223 | a pair has an aspect exactly when both bodies are core and some table entry matches. It then records the first match's name, colour, weight and style, the folded separation, and that separation's deviation from the entry's angle as the orb, within the entry's orb |
| D3Chart.PairAspectAnyMatch | d3-chart/d3chart.js:47-54 | since the orbs are disjoint, any entry that matches is the one recorded |
| D3Chart.PairAspectFound | d3-chart/d3chart.js:206-222 | the first matching entry gives exactly the expected aspect record |
| D3Chart.PairAspectNotFound | d3-chart/d3chart.js:206-223 | a pair that matches no entry gives no aspect |
| D3Chart.RowAspectsOrdered | d3-chart/d3chart.js:193-224 | the inner loop records pairs `(i, j)` with `j` increasing |
| D3Chart.RowAspectsSound | d3-chart/d3chart.js:193-224 | every aspect the inner loop records is the pair's aspect |
| D3Chart.RowAspectsComplete | d3-chart/d3chart.js:193-224 | every pair of the row that has an aspect is recorded |
| D3Chart.AspectsBeforeOrdered | d3-chart/d3chart.js:192-225 | the outer loop records pairs in lexicographic order |
| D3Chart.AspectsBeforeSound | d3-chart/d3chart.js:192-225 | every recorded aspect is its pair's aspect |
| D3Chart.AspectsBeforeComplete | d3-chart/d3chart.js:192-225 | every pair in the scanned rows that has an aspect is recorded |
| D3Chart.AspectsOfPair | d3-chart/d3chart.js:189-226 | a pair `i < j` appears in `aspects` exactly when it has an aspect, appears as that aspect, and appears at most once |
| D3Chart.AspectsOf | d3-chart/d3chart.js:189-226 | the nested loops' aspect list as a value; `AspectsOfPair` and the `AspectsBefore` lemmas prove it sound, complete, ordered and repeat-free |
| D3Chart.DrawList | d3-chart/d3chart.js:426-429 | `planetsToDraw` holds exactly the bodies whose `planetSymbols` lookup is truthy (`HasSymbol`: a glyph key, or a name every object inherits such as `toString`) that are not axis points, and drops the extended bodies when they are hidden |
| D3Chart.DrawableInherited | d3-chart/d3chart.js:426 | a body named after a property every object inherits (`toString`, `constructor`, ...) passes the `planetSymbols[p.planet]` test and is drawn |
| D3Chart.DrawListOrder | d3-chart/d3chart.js:426-429 | the two filters keep `chartData` order: the list of a concatenation is the concatenation of the lists, and one position is kept exactly when drawable |
| D3Chart.DrawListFrom | d3-chart/d3chart.js:426-429 | every drawn body is a position of `chartData`, and drawable names that are distinct there are distinct in the drawn list |
| D3Chart.ClustersDrawn | d3-chart/d3chart.js:426-432 | the clusters hold drawable positions of `chartData`, without a repeated name when `chartData` has none among its drawable positions |
| D3Chart.AngleSum | d3-chart/d3chart.js:436 | the `reduce` is the sum of the cluster's angles |
| D3Chart.ClusterWrites | d3-chart/d3chart.js:434-446 | a cluster of `N > 1` writes its fan degrees member by member; a lone body is not written |
| D3Chart.ApplyWriteShape | d3-chart/d3chart.js:440-443 | a write reaches only the first position with the body's name and changes only its visual degree |
| D3Chart.ApplyWritesShape | d3-chart/d3chart.js:433-446 | the layout changes nothing but visual degrees |
| D3Chart.ApplyWriteCases | d3-chart/d3chart.js:440-443 | the write is a no-op when no position has the name |
| D3Chart.ApplyWritesNames | d3-chart/d3chart.js:440 | writing visual degrees never changes what `find` by name returns |
| D3Chart.ApplyWritesUntouched | d3-chart/d3chart.js:433-446 | a position that no write's `find` lands on keeps every field |
| D3Chart.ApplyWritesLastWins | d3-chart/d3chart.js:433-446 | a position's final visual degree is the value of the last write to its name |
| D3Chart.LaidOutShape | d3-chart/d3chart.js:425-446 | the layout keeps every position except for its visual degree |
| D3Chart.LaidOut | d3-chart/d3chart.js:425-446 | `chartData` after the `clusters.forEach` writes, as a value; `LaidOutShape`, `LaidOutPlacement` and `LaidOutUntouched` prove where each position ends up |
| D3Chart.FanWritesAt | d3-chart/d3chart.js:433-446 | with no repeated name among the cluster members, the position `find` reaches for member `i` of a cluster of `N > 1` ends with that member's fan degree, and for a lone body keeps its old visual degree |
| D3Chart.LaidOutPlacement | d3-chart/d3chart.js:433-446 | when no two drawable positions of `chartData` share a name, `find` reaches the drawn body itself; member `i` of a cluster of `N > 1` gets `avg - (N-1)*9/2 + 9i` and a lone body keeps any earlier visual degree. With a repeated name `find` writes into the first position of that name instead, so the condition is needed |
| D3Chart.LaidOutUntouched | d3-chart/d3chart.js:425-446 | positions that are not drawn, the axis points and hidden extended bodies among them, keep every field |
| D3Chart.NearAngleCircular | d3-chart/d3chart.js:352 | for angles on the circle the three comparisons of `isAxis` say the circular distance is below 0.1 |
| D3Chart.AxisCusps | d3-chart/d3chart.js:348-352 | the first cusp is drawn as an axis line, and so is the seventh when the text had no `DSC` |
| D3Chart.AxisAsc | d3-chart/d3chart.js:348-352 | the cusp of house 1 carries the Ascendant |
| D3Chart.AxisDsc | d3-chart/d3chart.js:348-352 | the cusp of house 7 carries the synthesised Descendant |
| D3Chart.IsAxis | d3-chart/d3chart.js:345-352 | `axes.some(...)`: some axis position lies within 0.1 of the cusp, allowing one turn either way; `NearAngleCircular` and the `Axis` lemmas prove which cusps that marks |
| D3Chart.Chart.ParseDataAndGenerateHouses | d3-chart/d3chart.js:128-186 | a throwing line leaves every global as it was. Without an Ascendant only `chartData` is replaced. Otherwise `chartData` becomes the derived positions and `houseCusps` the twelve cusps of the Ascendant |
| D3Chart.Chart.GenerateCusps | d3-chart/d3chart.js:163-166 | `houseCusps` is rebuilt as the twelve cusps, nothing else changes |
| D3Chart.Chart.PushAxisPoints | d3-chart/d3chart.js:168-176 | `chartData` gains `IC` and `DSC` as the derivation says |
| D3Chart.Chart.AssignHousesInPlace | d3-chart/d3chart.js:179-185 | every position of `chartData` gets its house |
| D3Chart.Chart.CalculateAspects | d3-chart/d3chart.js:189-226 | `aspects` becomes the aspect list of `chartData`, everything else unchanged |
| D3Chart.Chart.ScanRow | d3-chart/d3chart.js:193-224 | one pass of the inner loop appends the row's aspects |
| D3Chart.Chart.ScanPair | d3-chart/d3chart.js:194-223 | one pair appends its aspect if it has one, stopping at the first match |
| D3Chart.Chart.DrawPlanets | d3-chart/d3chart.js:425-446 | `chartData` becomes its layout: the fan writes of every cluster, in cluster order |
| D3Chart.Chart.SpreadCluster | d3-chart/d3chart.js:434-446 | one cluster's writes go through `find` by name |
| D3Interpretations.PlanetInterpretationFields | d3-chart/d3chart.js:563-583 | the text depends only on the body's name, sign, degree, minute and retrograde flag |
| D3Interpretations.PlanetInterpretationRetrograde | d3-chart/d3chart.js:578-580 | the retrograde text is the direct text followed by the retrograde note |
| D3Interpretations.PlanetHeadingFields | d3-chart/d3chart.js:564-569 | the heading's degree and minute read back, the minute padded to at least two digits with a leading zero below ten |
| D3Interpretations.PlanetInterpretation | d3-chart/d3chart.js:563-583 | the heading, the table text or the generic sentence, and the retrograde note; the three lemmas above prove what it depends on and how its fields read back |
| D3Interpretations.SpecificText | d3-chart/d3chart.js:599-603 | a specific text is used exactly when the ordered or the reverse key has a non-empty entry |
| D3Interpretations.SpecificTextOrder | d3-chart/d3chart.js:603 | the `P1_P2` entry wins, and the `P2_P1` entry is used only when the first has no text |
| D3Interpretations.SpecificTextSymmetric | d3-chart/d3chart.js:599-603 | when the two keys do not hold differing texts, the pair's order does not matter |
| D3Interpretations.AspectOrbField | d3-chart/d3chart.js:590-593 | the `Orb:` field is the nearest tenth to the recorded orb |
| D3Interpretations.AspectInterpretation | d3-chart/d3chart.js:585-609 | the title, the `Orb:` line, then the general and specific texts or the generic sentence; `SpecificText`, its lemmas and `AspectOrbField` prove its parts |
| P5Chart.AspectDefsDisjoint | p5chart.js:62-74 | the eleven orb intervals are pairwise disjoint, so first match is any match |
| P5Chart.ParseEntry | p5chart.js:136-145 | every parsed line becomes a body record |
| P5Chart.ParseLine | p5chart.js:134-145 | a kept line is a body whose visual degree starts at 0 |
| P5Chart.Outcomes | p5chart.js:134-146 | the `map` treats each line on its own |
| P5Chart.CollectShape | p5chart.js:134-146 | the parse fails exactly when some line throws, and otherwise an entry is in the list exactly when some line keeps it |
| P5Chart.KeptOfFilter | p5chart.js:134-146 | the kept entries are an order-keeping filter: they distribute over concatenation, a kept line gives its one entry and a blank or throwing line none |
| P5Chart.CollectKept | p5chart.js:134-146 | a completed parse is exactly the kept lines' entries in line order, each as often as its line occurs |
| P5Chart.CollectAllKept | p5chart.js:134-146 | when every line is kept, the parse returns their entries in line order |
| P5Chart.ParseLinesShape | p5chart.js:134-146 | a non-blank line with fewer than three fields makes the parse throw; otherwise the list is the kept lines' bodies in line order, each at visual degree 0 |
| P5Chart.ParseText | p5chart.js:133-146 | `chartData` as the pipeline builds it from the text, or `None` when the `map` throws; `ParseTextOrder` and `ParseLinesShape` prove its contents |
| P5Chart.ParseTextOrder | p5chart.js:133-146 | when the parse of the text completes, it is the kept lines' entries in line order, so `find` for `ASC` and `MC` and the aspect pairs see the text's order |
| P5Chart.TokenPieces | p5chart.js:136-140 | a `D°M'` token splits at `°` into the degree digits and the minute with its apostrophe, which `parseInt` reads as their values |
| P5Chart.ParseEntryFields | p5chart.js:136-145 | the record takes the untrimmed name and sign, the two numbers, `indexOf(sign)*30 + deg + min/60`, and `R` exactly when the fourth field is exactly `R` |
| P5Chart.LineFields | p5chart.js:135 | a serialised line splits into its four fields |
| P5Chart.ParseLineFields | p5chart.js:134-145 | a line with those fields parses to exactly that body |
| P5Chart.ParseLineOf | p5chart.js:134-145 | `Name,Sign,D°M'[,R]` parses to exactly that body |
| P5Chart.ParseUnknownSign | p5chart.js:138-141 | an unknown sign is kept, with sign index -1, so the degree is `-30 + deg + min/60` |
| P5Chart.FindEntry | p5chart.js:147 | `find` returns the first entry with the name, and nothing exactly when none has it |
| P5Chart.SelectShape | p5chart.js:159 | the `filter` keeps, in order, exactly the entries the selection accepts |
| P5Chart.Select | p5chart.js:159 | the `filter` as references to the entries `Keeps` accepts (the truthy `planetSymbols[p.name]` is `HasSymbol`, which inherited names such as `toString` pass too), at most one per entry; `SelectShape` proves it keeps exactly the accepted ones in order |
| P5Chart.KeepsInherited | p5chart.js:301 | an entry named after a property every object inherits passes the `planetSymbols[p.name]` filters of `drawPlanets` and `handleInteractivity` |
| P5Chart.PairAspectShape | p5chart.js:162-172 | a pair has an aspect exactly when some entry matches. The record then carries the first match's name together with the entry's own angle, orb, colour, weight and style |
| P5Chart.PairAspectAnyMatch | p5chart.js:62-75 | any matching entry of the eleven is the one recorded |
| P5Chart.PairAspectFound | p5chart.js:166-172 | the first matching entry gives exactly the spread record |
| P5Chart.PairAspectNotFound | p5chart.js:166-172 | a pair that matches no entry records nothing |
| P5Chart.PairAspect | p5chart.js:162-172 | the aspect of one pair records the two references' chart indices, first before second; `PairAspectShape` and the lemmas after it prove which entry is chosen and what is recorded |
| P5Chart.RowAspectsOrdered | p5chart.js:161-173 | the inner loop records pairs with increasing second index |
| P5Chart.RowAspectsSound | p5chart.js:161-173 | every aspect recorded is the pair's aspect |
| P5Chart.RowAspectsComplete | p5chart.js:161-173 | every pair of the row with an aspect is recorded |
| P5Chart.AspectsBeforeOrdered | p5chart.js:160-174 | pairs are recorded in lexicographic order |
| P5Chart.AspectsBeforeSound | p5chart.js:160-174 | every recorded aspect is its pair's aspect |
| P5Chart.AspectsBeforeComplete | p5chart.js:160-174 | every pair in the scanned rows with an aspect is recorded |
| P5Chart.AspectsOfCore | p5chart.js:157-175 | over the core-filtered list, aspects are sound and complete, join two core bodies of `chartData` with the first before the second, and name each pair at most once |
| P5Chart.AspectsOf | p5chart.js:157-175 | the nested loops' aspect list as a value; `AspectsOfCore` and the `AspectsBefore` lemmas prove it sound, complete, ordered and repeat-free |
| P5Chart.DegreeSum | p5chart.js:313 | the `reduce` is the sum of the cluster's degrees |
| P5Chart.ApplyWritesDistinct | p5chart.js:306-319 | with each entry written at most once, a written entry holds its written visual degree |
| P5Chart.ApplyWritesUntouched | p5chart.js:306-319 | an entry no write reaches is unchanged |
| P5Chart.FanWriteOf | p5chart.js:307-318 | member `i` of cluster `c` is written its placed degree |
| P5Chart.ClustersDrawn | p5chart.js:301-305 | the clusters are non-empty and hold drawn bodies of `chartData`, each once |
| P5Chart.LaidOutPlacement | p5chart.js:306-319 | after the layout, a lone body's visual degree is its absolute degree and a member of a larger cluster sits at its 9-degree fan position |
| P5Chart.LaidOutUntouched | p5chart.js:301 | entries that are not drawn, the axis points included, keep their visual degree |
| P5Chart.DrawnIsBody | p5chart.js:301 | every drawn entry is a parsed body, so the write sets its visual degree |
| P5Chart.LaidOut | p5chart.js:300-319 | `chartData` after the cluster writes, as a value; `LaidOutPlacement` and `LaidOutUntouched` prove each entry's visual degree |
| P5Chart.DistanceBelow | p5chart.js:367 | `dist(...) < 15` holds exactly when the squared distance is below 225 |
| P5Chart.HitRadius | p5chart.js:363-364 | the hit radius is `ZODIAC_INNER_RADIUS - 10` for the four axis names and `PLANET_RING_RADIUS` otherwise; `HoverBoxesExact` states it as 290 and 270 |
| P5Chart.Hovered | p5chart.js:365-367 | the pointer is strictly closer than 15 to the glyph at the screen angle and hit radius; an axis point, having no visual degree, is never hovered |
| P5Chart.HoveredAmong | p5chart.js:361-375 | at most one box per active body |
| P5Chart.HoveredAmongMembers | p5chart.js:361-375 | a box is drawn for an entry exactly when it is active and hovered |
| P5Chart.HoveredAmongOrdered | p5chart.js:361-375 | the boxes are drawn in `chartData` order, each entry at most once |
| P5Chart.HoveredAmongExact | p5chart.js:361-375 | the boxes are exactly the hovered active entries, in increasing order |
| P5Chart.HoverBoxesExact | p5chart.js:355-376 | without an Ascendant there are no boxes. Otherwise an entry gets a box exactly when it is active and its glyph, at the 290 axis radius or the 270 ring radius, is strictly closer than 15 to the pointer, in order |
| P5Chart.HoverBoxes | p5chart.js:355-376 | the entries that get a box, as a value; `HoverBoxesExact` proves which ones and in what order |
| P5Chart.HoverScan | p5chart.js:361-375 | the loop with its `hoveredOnPlanet` flag draws exactly the hovered boxes and sets the flag exactly when there is one |
| P5Chart.Chart.ParseDataAndGenerateHouses | p5chart.js:133-155 | a line with fewer than three fields leaves everything as it was. Otherwise `chartData` is replaced; with an Ascendant twelve cusps are appended to the old ones, and with a Midheaven too `DSC` and `IC` are pushed |
| P5Chart.Chart.GenerateHouses | p5chart.js:146-154 | the cusps are appended to `houseCusps` without clearing it, and the axis points are bare records opposite the Ascendant and the Midheaven |
| P5Chart.Chart.CalculateAspects | p5chart.js:157-175 | `aspects` becomes the aspect list of the core-filtered `chartData` |
| P5Chart.Chart.ScanRows | p5chart.js:160-174 | the nested loops compute the aspect list of the filtered list |
| P5Chart.Chart.ScanRow | p5chart.js:161-173 | one inner loop appends its row's aspects |
| P5Chart.Chart.ScanPair | p5chart.js:162-172 | one pair appends its aspect if it has one |
| P5Chart.Chart.DrawPlanets | p5chart.js:300-319 | `chartData` becomes its layout |
| P5Chart.Chart.PlaceCluster | p5chart.js:307-318 | one cluster's writes set its members' visual degrees |
| P5Chart.Chart.HandleInteractivity | p5chart.js:355-376 | the boxes drawn are exactly the hover boxes of `chartData`, and the flag is set exactly when one is drawn |
| BirthChartCalculator.GetZodiacSign | d3-chart/birth-chart-calculator.js:35-47 | the search loop with its early return and Aries fallback returns the sign of the remainder's slot |
| BirthChartCalculator.DegreeToDegreesMinutes | d3-chart/birth-chart-calculator.js:50-54 | minutes are in 0..59 and `degrees + minutes/60 <= d < degrees + (minutes + 1)/60` |
| BirthChartCalculator.DegreesMinutesUnique | d3-chart/birth-chart-calculator.js:50-54 | that minute is the only one containing `d` |
| BirthChartCalculator.PositionInSign | d3-chart/birth-chart-calculator.js:66-67 | a longitude in [0, 330) gets its sign, a degree in 0..29, and a sign/degree/minute that reads back to within a minute below it |
| BirthChartCalculator.PositionPastPisces | d3-chart/birth-chart-calculator.js:66-67 | a longitude in [330, 360) is filed under Aries with a degree of 330 to 359 |
| BirthChartCalculator.PositionNegative | d3-chart/birth-chart-calculator.js:66-67 | a negative longitude is filed under Aries with a negative degree |
| BirthChartCalculator.PositionAt | d3-chart/birth-chart-calculator.js:65-75 | the record of a longitude: its sign and `degreeToDegreesMinutes` of the offset into it; the three lemmas above prove its sign, degree and minute |
| BirthChartCalculator.CalculatePlanetPosition | d3-chart/birth-chart-calculator.js:57-76 | the body's longitude `(start + days/period*360) % 360` from the clock's day count, as a position, never retrograde; `PositionsOrder` and `PositionOnCircle` prove its place in the chart and its reading back |
| BirthChartCalculator.MidheavenSquare | d3-chart/birth-chart-calculator.js:106-118 | the Midheaven of an Ascendant on the circle is on the circle, exactly 90 degrees away |
| BirthChartCalculator.CalculateMidheaven | d3-chart/birth-chart-calculator.js:106-118 | the `MC` record at `(asc + 90) % 360`; `MidheavenSquare` proves it lies 90 degrees on |
| BirthChartCalculator.AscendantRange | d3-chart/birth-chart-calculator.js:89-91 | an eastern longitude gives a non-negative Ascendant, and at midnight a western longitude is the Ascendant unchanged, so below zero |
| BirthChartCalculator.CalculateAscendant | d3-chart/birth-chart-calculator.js:80-103 | the `ASC` record at `((hour + minute/60)/24*360 + longitude) % 360`; `AscendantRange` proves its bounds |
| BirthChartCalculator.PositionsOrder | d3-chart/birth-chart-calculator.js:130-157 | `positions` is the ten planets, Node, Lilith, Chiron, ASC, then MC, none retrograde, with MC from ASC |
| BirthChartCalculator.AllPositions | d3-chart/birth-chart-calculator.js:130-157 | the fifteen positions of the chart; `PositionsOrder` proves their order and sources |
| BirthChartCalculator.HouseCuspsShape | d3-chart/birth-chart-calculator.js:160-173 | there are twelve cusps; cusp `k` is house `k + 1` at `(asc + 30k) % 360` |
| BirthChartCalculator.HouseCuspSign | d3-chart/birth-chart-calculator.js:163-171 | each cusp's sign, degree and minute are those of its angle |
| BirthChartCalculator.HouseCusps | d3-chart/birth-chart-calculator.js:160-173 | the twelve whole-sign cusps as a value; `HouseCuspsShape`, `HouseCuspSign` and `GenerateHouseCusps` prove their angles and signs |
| BirthChartCalculator.CalculateBirthChart | d3-chart/birth-chart-calculator.js:121-183 | the call throws exactly when `date` or `time` is empty or missing or a coordinate is missing. Otherwise it returns the positions, ASC, MC from ASC, the twelve cusps and the coordinates |
| BirthChartCalculator.GenerateHouseCusps | d3-chart/birth-chart-calculator.js:160-173 | the loop pushes exactly the twelve cusps |
| BirthChartCalculator.ChartLines | d3-chart/birth-chart-calculator.js:187-189 | one line per position |
| BirthChartCalculator.ParsedAll | d3-chart/birth-chart-calculator.js:187-189 | what the D3 parser makes of each position, position by position |
| BirthChartCalculator.ChartLineParses | d3-chart/birth-chart-calculator.js:189 | the D3 parser reads a line with a sign name and a non-negative degree back to its name, sign, degree, minute and retrograde flag |
| BirthChartCalculator.ChartLineShape | d3-chart/birth-chart-calculator.js:189 | such a line is non-empty, has no line break and is already trimmed |
| BirthChartCalculator.ParseLinesAll | d3-chart/birth-chart-calculator.js:187-190 | the D3 parser keeps every serialised line, in order |
| BirthChartCalculator.FormatRoundTrip | d3-chart/birth-chart-calculator.js:186-193 | the D3 parser reads the serialised chart back to each position's fields, in order |
| BirthChartCalculator.ConvertToChartFormat | d3-chart/birth-chart-calculator.js:186-193 | one line per position, joined with line breaks; `FormatRoundTrip` and `ChartRoundTrip` prove the D3 parser reads it back |
| BirthChartCalculator.JoinedText | d3-chart/birth-chart-calculator.js:190 | trimming and splitting the joined text at line breaks gives the lines back |
| BirthChartCalculator.NegativeLineDropped | d3-chart/birth-chart-calculator.js:189 | a position with a negative degree is written as a line the D3 parser drops |
| BirthChartCalculator.NegativeTokenOf | d3-chart/birth-chart-calculator.js:189 | a negative degree is written with a minus sign |
| BirthChartCalculator.RefusedTokenDropped | d3-chart/d3chart.js:139-141 | a line whose token does not match the pattern is dropped |
| BirthChartCalculator.NegativeTokenRefused | d3-chart/d3chart.js:139 | a token with a minus sign never matches the pattern |
| BirthChartCalculator.ChartRoundTrip | d3-chart/birth-chart-calculator.js:130-193 | when every longitude is non-negative, the serialised chart parses back to fifteen records with the names in order, the signs, and angles within a minute below the computed ones |
| BirthChartCalculator.PositionOnCircle | d3-chart/birth-chart-calculator.js:66-67 | a computed position on the circle serialises to a parseable line whose parsed angle is within a minute below it |
| AccurateEphemeris.JulianDay | d3-chart/accurate-ephemeris.js:5-20 | the function with its parameter reassignment and defaulted `second` computes the Julian Day formula |
| AccurateEphemeris.JulianDayOf | d3-chart/accurate-ephemeris.js:5-20 | the Julian Day formula, January and February counted as months 13 and 14 of the year before; `JulianEpoch`, `JulianDayTime`, `MonthLengths` and `YearPartStep` prove its epoch and its steps |
| AccurateEphemeris.JulianEpoch | d3-chart/accurate-ephemeris.js:11-17 | noon of 1 January 2000 is day 2451545.0 |
| AccurateEphemeris.JulianDayTime | d3-chart/accurate-ephemeris.js:14-17 | the day, hour, minute and second add linearly to the month's start |
| AccurateEphemeris.MonthLengths | d3-chart/accurate-ephemeris.js:5-17 | consecutive month starts are exactly that month's Gregorian length apart, February 29 days in leap years |
| AccurateEphemeris.YearPartStep | d3-chart/accurate-ephemeris.js:11-14 | the year terms grow by 365 days, plus one for a Gregorian leap year |
| AccurateEphemeris.GetZodiacSign | d3-chart/accurate-ephemeris.js:328-355 | the copy of the search loop behaves like the calculator's, Aries fallback included |
| AccurateEphemeris.AccurateMidheaven | d3-chart/accurate-ephemeris.js:273-283 | the Midheaven is `(asc + 90) % 360` with its sign, degree and minute, the same record as the calculator's |
| AccurateEphemeris.ConvertAccurateRoundTrip | d3-chart/accurate-ephemeris.js:364-371 | the serialiser writes the same text as the calculator's and the D3 parser reads it back |
| AccurateEphemeris.ConvertAccurateToChartFormat | d3-chart/accurate-ephemeris.js:364-371 | the same serialisation as the calculator's; `ConvertAccurateRoundTrip` proves it |

## Left out

- Drawing is not modelled: SVG and canvas calls, tick marks, dotted lines and tooltip styling. The model keeps only what decides the drawing: the screen angle, the `isAxis` test, the hit radius and the distance test.
- `cos` and `sin` are function parameters, because the glyph coordinates are floating-point trigonometry. The hover test is stated over the coordinates they give.
- DOM and event plumbing is not modelled: the textarea, the `window` interpretation tables, checkboxes, buttons, resizing and p5 `setup`/`draw`/`mousePressed`. The text, the tables and the show-extended option are parameters.
- Date parsing is a parameter (`BirthChartCalculator.Clock`). `calculatePlanetPosition` and `calculateAscendant` read the days elapsed and the local hour and minute from JavaScript `Date` objects. The model takes those values as given.
- The floating-point astronomy of `accurate-ephemeris.js` is not modelled: mean anomaly, eccentricity, the Kepler iteration, orbital elements, the accurate planets, the accurate Ascendant and the additional-points approximation. None of it has an exact contract. The ascendant angle is an input.
- Numbers are exact reals. IEEE rounding is not modelled; `toFixed(1)` is exact rounding to the nearest tenth.
- AccurateEphemeris.JulianDay: `year` and `month` are integers, the only way the source calls it.
- P5Chart.Chart.ParseDataAndGenerateHouses: assumes every degree field parses as numbers (`NumericText`). The `NaN` that `parseInt` gives on a malformed field is not modelled. `parseInt` also reads a `0x`/`0X` token as hexadecimal, where `ParseInt` gives no value, so `NumericText` excludes such text as well. The built-in data text satisfies this.
- P5Chart.Hovered: an axis point pushed by the parse has no visual degree, so its angle is `NaN` and it is never hovered. The model states that outcome rather than modelling `NaN`.
- BirthChartCalculator.CalculateBirthChart: a `null` latitude or longitude is not told apart from a present one. The date and time text is checked only for being present and non-empty.
- BirthChartCalculator.CalculateAscendant: the source's Ascendant record has no `isRetrograde` field; the model sets it to false, which is how the serialiser's `pos.isRetrograde ? ',R' : ''` reads the `undefined`.
- BirthChartCalculator.CalculateMidheaven: the same for the Midheaven record: `isRetrograde` is false in the model where the source leaves it undefined.
- D3Chart.OppositePoint: the synthesised `IC` and `DSC` have no `isRetrograde` field in the source; the model sets it to false, which is how the `undefined` reads wherever it is used.
- D3Interpretations: `toLowerCase` is modelled on ASCII letters only.
- The synthesised D3 `IC` and `DSC` carry no visual degree (`None`). They are not drawn as glyphs, so nothing reads it.
- svelte/vite.config.js is build configuration and is not part of this model.
