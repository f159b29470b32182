/** The chart pipeline of the D3 renderer: parsing the position text with validation, the
    whole-sign houses and the synthesised axis points, the first-match aspect scan over the
    6-entry table, the cluster fan-out of the glyph layout, and the axis test for house
    lines. */
module D3Chart {
  import opened Wrappers
  import opened JsNumber
  import opened JsString
  import Zodiac
  import opened ChartCommon

  /** One element of `chartData`. A parsed line fills every field but `house`; the synthesised
      IC and DSC have no retrograde flag (read as false) and no `visualDegree`. The house is
      only set once the Ascendant is known. */
  datatype Position = Position(planet: string, sign: string, degree: nat, minute: nat,
                               isRetrograde: bool, angle: real, visualDegree: Option<real>,
                               house: Option<int>)

  /** One element of `aspects`. The two bodies are the `chartData` objects themselves in the
      source; here they are their indices into `chartData`, which keeps the sharing. */
  datatype Aspect = Aspect(planet1: nat, planet2: nat, aspect: string, angle: real, orb: real,
                           color: string, weight: real, style: string)

  /** `aspectDefs`, in declaration order. */
  const AspectDefs: seq<AspectDef> := [
    AspectDef("Conjunction", 0.0, 8.0, "#228B22", 2.5, "solid"),
    AspectDef("Opposition", 180.0, 8.0, "#FF0000", 2.5, "solid"),
    AspectDef("Square", 90.0, 8.0, "#FF0000", 2.5, "solid"),
    AspectDef("Trine", 120.0, 8.0, "#0000FF", 2.0, "solid"),
    AspectDef("Sextile", 60.0, 6.0, "#0000FF", 2.0, "dotted"),
    AspectDef("Quincunx", 150.0, 3.0, "#B8860B", 1.5, "dashed")
  ]

  /** No two orbs of the table overlap, so the scan's order never decides the aspect. */
  lemma AspectDefsDisjoint()
    ensures |AspectDefs| == 6
    ensures OrbsDisjoint(AspectDefs)
  {
  }

  // ---------------------------------------------------------------------------------------
  // Parsing

  /** What the `map` callback does with one non-blank line. */
  datatype LineResult =
    | Dropped            // returns `null`, removed by the final `filter`
    | Kept(p: Position)
    | Throws             // `parts[1]` or `parts[2]` is undefined: a TypeError

  /** `signIndex * 30 + degree + minute / 60` */
  function AbsoluteDegree(signIndex: int, degree: nat, minute: nat): real
  {
    (signIndex * 30) as real + degree as real + minute as real / 60.0
  }

  /** One line `Name,Sign,DD°MM'[,R]`, split at the commas. */
  function ParseLine(line: string): LineResult
  {
    ParseFields(Split(line, ','))
  }

  /** The callback on the comma-separated fields of a line: fewer than three fields throw; the
      line is kept exactly when its trimmed third field matches the degree pattern and its
      trimmed second field is one of the twelve sign names, and dropped otherwise. Neither the
      degree nor the minute is range-checked. */
  function ParseFields(parts: seq<string>): (r: LineResult)
    ensures r.Throws? <==> |parts| < 3
    ensures r.Kept? <==> |parts| >= 3 && Trim(parts[1]) in Zodiac.SignNames
                         && MatchDegreeMinute(Trim(parts[2])).Some?
    ensures r.Kept? ==>
      var (d, m) := MatchDegreeMinute(Trim(parts[2])).value;
      && r.p.planet == Trim(parts[0]) && r.p.sign == Trim(parts[1])
      && r.p.degree == d && r.p.minute == m
      && r.p.angle == AbsoluteDegree(Zodiac.IndexOf(r.p.sign), d, m)
      && r.p.visualDegree == Some(r.p.angle) && r.p.house.None?
      && (r.p.isRetrograde <==> |parts| > 3 && Trim(parts[3]) == "R")
    ensures r.Kept? ==> Fresh(r.p)
  {
    if |parts| < 3 then Throws
    else
      var name := Trim(parts[0]);
      var sign := Trim(parts[1]);
      var degreePart := Trim(parts[2]);
      var isRetrograde := |parts| > 3 && Trim(parts[3]) == "R";
      var degreeMatch := MatchDegreeMinute(degreePart);
      if degreeMatch.None? || sign !in Zodiac.SignNames then Dropped
      else
        var (degree, minute) := degreeMatch.value;
        var angle := AbsoluteDegree(Zodiac.IndexOf(sign), degree, minute);
        assert angle >= 0.0 by { assert Zodiac.IndexOf(sign) >= 0; }
        Kept(Position(name, sign, degree, minute, isRetrograde, angle, Some(angle), None))
  }

  /** What a parsed position always satisfies: a sign name, a non-negative angle, and a
      visual degree equal to it. */
  predicate Fresh(p: Position)
  {
    p.sign in Zodiac.SignNames && p.angle >= 0.0 && p.visualDegree == Some(p.angle) && p.house.None?
  }

  /** `lines.filter(line => line.trim() !== '').map(callback).filter(p => p !== null)`, or
      `None` when the `map` throws on some line. */
  function Pipeline(callback: string -> LineResult, lines: seq<string>): Option<seq<Position>>
  {
    if lines == [] then Some([])
    else
      var rest := Pipeline(callback, lines[1..]);
      if Trim(lines[0]) == "" then rest
      else match callback(lines[0])
        case Throws => None
        case Dropped => rest
        case Kept(p) =>
          if rest.None? then None else Some([p] + rest.value)
  }

  /** The pipeline with the parser's own callback. */
  function ParseLines(lines: seq<string>): Option<seq<Position>>
  {
    Pipeline(ParseLine, lines)
  }

  /** The pipeline fails exactly when the callback throws on some non-blank line, and it
      returns only records the callback keeps. */
  lemma {:induction false} PipelineSpec(callback: string -> LineResult, lines: seq<string>)
    ensures Pipeline(callback, lines).None? <==>
      exists k :: 0 <= k < |lines| && Trim(lines[k]) != "" && callback(lines[k]).Throws?
    ensures Pipeline(callback, lines).Some? ==>
      forall x :: 0 <= x < |Pipeline(callback, lines).value| ==>
        exists k :: 0 <= k < |lines| && callback(lines[k]) == Kept(Pipeline(callback, lines).value[x])
  {
    if lines != [] {
      PipelineSpec(callback, lines[1..]);
      assert forall k :: 1 <= k < |lines| ==> lines[k] == lines[1..][k - 1];
    }
  }

  /** Lines that are all non-blank and kept give their records, in order. */
  lemma {:induction false} PipelineKept(callback: string -> LineResult, lines: seq<string>, rs: seq<Position>)
    requires |lines| == |rs|
    requires forall k :: 0 <= k < |lines| ==> Trim(lines[k]) != "" && callback(lines[k]) == Kept(rs[k])
    ensures Pipeline(callback, lines) == Some(rs)
  {
    if lines != [] {
      assert forall k :: 0 <= k < |lines| - 1 ==> lines[1..][k] == lines[k + 1] && rs[1..][k] == rs[k + 1];
      PipelineKept(callback, lines[1..], rs[1..]);
      assert [rs[0]] + rs[1..] == rs;
    }
  }

  /** The parser fails exactly when some non-blank line has fewer than three comma fields, and
      every record it returns is fresh. */
  lemma ParseLinesSpec(lines: seq<string>)
    ensures ParseLines(lines).None? <==>
      exists k :: 0 <= k < |lines| && Trim(lines[k]) != "" && |Split(lines[k], ',')| < 3
    ensures ParseLines(lines).Some? ==>
      forall x :: 0 <= x < |ParseLines(lines).value| ==> Fresh(ParseLines(lines).value[x])
  {
    PipelineSpec(ParseLine, lines);
  }

  /** `data.trim().split('\n')`, then the line pipeline. */
  function ParseText(text: string): Option<seq<Position>>
  {
    ParseLines(Split(Trim(text), '\n'))
  }

  /** Blank text yields no positions at all (and hence no Ascendant). */
  lemma ParseBlankText(text: string)
    requires forall i :: 0 <= i < |text| ==> IsWhite(text[i])
    ensures ParseText(text) == Some([])
  {
    TrimEmptyIffAllWhite(text);
    assert Split("", '\n') == [""];
    assert Trim("") == "";
    assert [""][1..] == [];
  }

  lemma TokenShape(dd: string, mm: string)
    requires |dd| >= 1 && AllDigits(dd) && |mm| >= 1 && AllDigits(mm)
    ensures ',' !in TokenOf(dd, mm) && Trim(TokenOf(dd, mm)) == TokenOf(dd, mm)
    ensures MatchDegreeMinute(TokenOf(dd, mm)) == Some((DigitsValue(dd), DigitsValue(mm)))
  {
    var token := TokenOf(dd, mm);
    assert token == dd + ['°'] + mm + ['\''];
    forall i | 0 <= i < |dd| ensures dd[i] != ',' { assert IsDigit(dd[i]); }
    forall i | 0 <= i < |mm| ensures mm[i] != ',' { assert IsDigit(mm[i]); }
    assert IsDigit(dd[0]) && token[0] == dd[0];
    TrimNoop(token);
    MatchDegreeMinuteOf(dd, mm);
  }

  /** The fields of a line only matter through their trimmed values. */
  lemma ParseFieldsOf(parts: seq<string>, name: string, sign: string, d: nat, m: nat, retro: bool)
    requires |parts| >= 3 && Trim(parts[0]) == name && Trim(parts[1]) == sign && sign in Zodiac.SignNames
    requires MatchDegreeMinute(Trim(parts[2])) == Some((d, m))
    requires retro <==> |parts| > 3 && Trim(parts[3]) == "R"
    ensures ParseFields(parts) == Kept(Position(name, sign, d, m, retro, AbsoluteDegree(Zodiac.IndexOf(sign), d, m),
                                                Some(AbsoluteDegree(Zodiac.IndexOf(sign), d, m)), None))
  {
  }

  lemma LineFieldsTrimmed(name: string, sign: string, token: string, retro: bool)
    requires name == [] || (!IsWhite(name[0]) && !IsWhite(name[|name| - 1]))
    requires Trim(sign) == sign
    ensures var parts := [name, sign, token] + (if retro then ["R"] else []);
      && Trim(parts[0]) == name && Trim(parts[1]) == sign && parts[2] == token
      && (retro <==> |parts| > 3 && Trim(parts[3]) == "R")
  {
    TrimNoop(name);
    TrimNoop("R");
  }

  /** `name,sign,DD°MM'` with an optional `,R`, written without stray white space and with
      the two numbers as digit runs, is kept and recovers every field. */
  lemma ParseLineOf(name: string, sign: string, dd: string, mm: string, retro: bool)
    requires name == [] || (!IsWhite(name[0]) && !IsWhite(name[|name| - 1]))
    requires ',' !in name && sign in Zodiac.SignNames
    requires |dd| >= 1 && AllDigits(dd) && |mm| >= 1 && AllDigits(mm)
    ensures ParseLine(LineOf(name, sign, TokenOf(dd, mm), retro))
         == Kept(Position(name, sign, DigitsValue(dd), DigitsValue(mm), retro,
                          AbsoluteDegree(Zodiac.IndexOf(sign), DigitsValue(dd), DigitsValue(mm)),
                          Some(AbsoluteDegree(Zodiac.IndexOf(sign), DigitsValue(dd), DigitsValue(mm))), None))
  {
    var parts := [name, sign, TokenOf(dd, mm)] + (if retro then ["R"] else []);
    SignNameShape(sign);
    TokenShape(dd, mm);
    LineSplits(name, sign, TokenOf(dd, mm), retro);
    LineFieldsTrimmed(name, sign, TokenOf(dd, mm), retro);
    ParseFieldsOf(parts, name, sign, DigitsValue(dd), DigitsValue(mm), retro);
  }

  /** Sign names are plain letters: no comma, no white space at either end. */
  lemma SignNameShape(sign: string)
    requires sign in Zodiac.SignNames
    ensures |sign| > 0 && !IsWhite(sign[0]) && !IsWhite(sign[|sign| - 1]) && ',' !in sign
    ensures Trim(sign) == sign
  {
    Zodiac.SignNamesLetters(sign);
    assert forall j :: 0 <= j < |sign| ==> sign[j] != ',' && !IsWhite(sign[j]);
    TrimNoop(sign);
  }

  /** A degree outside 0..29 and a minute outside 0..59 are accepted as written: a line such
      as `Sun,Pisces,45°75'` is kept, at 376.25 degrees, past the end of the circle. */
  lemma ParseNoRangeCheck(name: string, sign: string, dd: string, mm: string)
    requires name == [] || (!IsWhite(name[0]) && !IsWhite(name[|name| - 1]))
    requires ',' !in name && sign in Zodiac.SignNames && Zodiac.IndexOf(sign) == 11
    requires |dd| >= 1 && AllDigits(dd) && DigitsValue(dd) == 45
    requires |mm| >= 1 && AllDigits(mm) && DigitsValue(mm) == 75
    ensures ParseLine(LineOf(name, sign, TokenOf(dd, mm), false)).Kept?
    ensures ParseLine(LineOf(name, sign, TokenOf(dd, mm), false)).p.angle == 376.25
  {
    ParseLineOf(name, sign, dd, mm, false);
  }

  // ---------------------------------------------------------------------------------------
  // Houses and axis points

  /** `chartData.find(p => p.planet === name)`, as the index of the element found. */
  function FindPlanet(ps: seq<Position>, name: string): (r: Option<nat>)
    ensures r.Some? ==> r.value < |ps| && ps[r.value].planet == name
    ensures r.Some? ==> forall k :: 0 <= k < r.value ==> ps[k].planet != name
    ensures r.None? <==> forall k :: 0 <= k < |ps| ==> ps[k].planet != name
  {
    FindPlanetFrom(ps, name, 0)
  }

  function FindPlanetFrom(ps: seq<Position>, name: string, i: nat): (r: Option<nat>)
    requires i <= |ps|
    ensures r.Some? ==> i <= r.value < |ps| && ps[r.value].planet == name
    ensures r.Some? ==> forall k :: i <= k < r.value ==> ps[k].planet != name
    ensures r.None? <==> forall k :: i <= k < |ps| ==> ps[k].planet != name
    decreases |ps| - i
  {
    if i == |ps| then None
    else if ps[i].planet == name then Some(i)
    else FindPlanetFrom(ps, name, i + 1)
  }

  predicate NonNegative(ps: seq<Position>)
  {
    forall k :: 0 <= k < |ps| ==> ps[k].angle >= 0.0
  }

  /** `zodiacSigns[Math.floor(angle / 30)]` for an angle already reduced into [0, 360). */
  function SignAt(angle: real): (s: string)
    requires 0.0 <= angle < 360.0
    ensures s in Zodiac.SignNames
  {
    Zodiac.SignNames[Floor(angle / 30.0)]
  }

  /** The opposite point of `from`, as the source synthesises IC from MC and DSC from ASC:
      `(from + 180) % 360`, its sign, degree and minute 0, no visual degree. */
  function OppositePoint(name: string, from: real): (p: Position)
    requires from >= 0.0
    ensures 0.0 <= p.angle < 360.0 && p.planet == name && p.house.None?
    ensures from < 180.0 ==> p.angle == from + 180.0
    ensures 180.0 <= from < 360.0 ==> p.angle == from - 180.0
  {
    var angle := Rem360(from + 180.0);
    assert from < 180.0 ==> angle == from + 180.0 by {
      if from < 180.0 { Rem360OfSmall(from + 180.0); }
    }
    assert 180.0 <= from < 360.0 ==> angle == from - 180.0 by {
      if 180.0 <= from < 360.0 { Rem360Unique(from + 180.0, from - 180.0, 1); }
    }
    Position(name, SignAt(angle), 0, 0, false, angle, None, None)
  }

  /** The whole-sign house: `floor(angle/30) - floor(asc/30) + 1`, plus 12 when not positive. */
  function HouseOf(angle: real, asc: real): int
  {
    var house := Floor(angle / 30.0) - Floor(asc / 30.0) + 1;
    if house <= 0 then house + 12 else house
  }

  /** The Ascendant's own sign is the first house, and every body and Ascendant in [0, 360)
      lands in a house 1..12: the house counts the signs from the Ascendant's sign forward. */
  lemma HouseOfRange(angle: real, asc: real)
    ensures HouseOf(asc, asc) == 1
    ensures 0.0 <= angle < 360.0 && 0.0 <= asc < 360.0 ==> 1 <= HouseOf(angle, asc) <= 12
    ensures 0.0 <= angle < 360.0 && 0.0 <= asc < 360.0 ==>
      HouseOf(angle, asc) - 1 == (Floor(angle / 30.0) - Floor(asc / 30.0)) % 12
  {
    if 0.0 <= angle < 360.0 && 0.0 <= asc < 360.0 {
      var a, b := Floor(angle / 30.0), Floor(asc / 30.0);
      assert 0 <= a < 12 && 0 <= b < 12;
    }
  }

  /** An angle past 360, which the parser lets through, lands beyond house 12. */
  lemma HouseBeyondTwelve()
    ensures HouseOf(376.25, 0.0) == 13
  {
    assert Floor(376.25 / 30.0) == 12;
  }

  /** IC (when MC is there and IC is not) and then DSC (when absent) are pushed. */
  function WithAxes(ps: seq<Position>, asc: real): (r: seq<Position>)
    requires NonNegative(ps) && asc >= 0.0
    ensures NonNegative(r) && |ps| <= |r| <= |ps| + 2 && r[..|ps|] == ps
  {
    var withIc :=
      match FindPlanet(ps, "MC")
      case Some(m) => if FindPlanet(ps, "IC").None? then ps + [OppositePoint("IC", ps[m].angle)] else ps
      case None => ps;
    assert withIc[..|ps|] == ps;
    if FindPlanet(withIc, "DSC").None? then withIc + [OppositePoint("DSC", asc)] else withIc
  }

  /** `p.house = ...` for every body in `chartData`. */
  function AssignHouses(ps: seq<Position>, asc: real): (r: seq<Position>)
  {
    seq(|ps|, k requires 0 <= k < |ps| => ps[k].(house := Some(HouseOf(ps[k].angle, asc))))
  }

  /** The whole derivation once the Ascendant is found. */
  function Derive(ps: seq<Position>): seq<Position>
    requires NonNegative(ps) && FindPlanet(ps, "ASC").Some?
  {
    var asc := ps[FindPlanet(ps, "ASC").value].angle;
    AssignHouses(WithAxes(ps, asc), asc)
  }

  /** Two lists with the same names at the same places give the same `find` result. */
  lemma FindSamePlanets(a: seq<Position>, b: seq<Position>, name: string)
    requires |a| == |b| && forall k :: 0 <= k < |a| ==> a[k].planet == b[k].planet
    ensures FindPlanet(a, name) == FindPlanet(b, name)
  {
  }

  /** Only the houses change, each to the house of its own angle. */
  lemma AssignHousesShape(w: seq<Position>, asc: real)
    ensures |AssignHouses(w, asc)| == |w|
    ensures forall k :: 0 <= k < |w| ==> AssignHouses(w, asc)[k] == w[k].(house := Some(HouseOf(w[k].angle, asc)))
    ensures forall name :: FindPlanet(AssignHouses(w, asc), name) == FindPlanet(w, name)
  {
    var d := AssignHouses(w, asc);
    forall name ensures FindPlanet(d, name) == FindPlanet(w, name) {
      FindSamePlanets(d, w, name);
    }
  }

  /** The pushes keep the parsed bodies in front, always leave a DSC, and leave an IC exactly
      when the text had an MC or an IC. */
  lemma WithAxesShape(ps: seq<Position>, asc: real)
    requires NonNegative(ps) && asc >= 0.0
    ensures forall k :: 0 <= k < |ps| ==> WithAxes(ps, asc)[k] == ps[k]
    ensures FindPlanet(WithAxes(ps, asc), "DSC").Some?
    ensures FindPlanet(WithAxes(ps, asc), "IC").Some? <==> FindPlanet(ps, "MC").Some? || FindPlanet(ps, "IC").Some?
  {
    var w := WithAxes(ps, asc);
    forall k | 0 <= k < |ps| ensures w[k] == ps[k] { assert w[..|ps|][k] == w[k]; }
    var withIc :=
      match FindPlanet(ps, "MC")
      case Some(m) => if FindPlanet(ps, "IC").None? then ps + [OppositePoint("IC", ps[m].angle)] else ps
      case None => ps;
    if FindPlanet(withIc, "DSC").None? {
      assert w[|w| - 1].planet == "DSC";
    } else {
      var j := FindPlanet(withIc, "DSC").value;
      assert w[j] == withIc[j];
    }
    if FindPlanet(ps, "IC").Some? {
      var j := FindPlanet(ps, "IC").value;
      assert w[j].planet == "IC";
    } else if FindPlanet(ps, "MC").Some? {
      assert withIc[|ps|].planet == "IC";
      assert w[|ps|] == withIc[|ps|];
    } else {
      assert withIc == ps;
      forall k | 0 <= k < |w| ensures w[k].planet != "IC" {
        if k >= |ps| { assert w[k].planet == "DSC"; }
      }
    }
  }

  /** After the derivation: the parsed bodies come first and only gain a house; DSC is
      present; IC is present iff MC or IC was; every body has the house of its angle, and the
      Ascendant is in house 1. */
  lemma DeriveShape(ps: seq<Position>)
    requires NonNegative(ps) && FindPlanet(ps, "ASC").Some?
    ensures |Derive(ps)| >= |ps|
    ensures forall k :: 0 <= k < |ps| ==> Derive(ps)[k] == ps[k].(house := Derive(ps)[k].house)
    ensures forall k :: 0 <= k < |Derive(ps)| ==>
      Derive(ps)[k].house == Some(HouseOf(Derive(ps)[k].angle, ps[FindPlanet(ps, "ASC").value].angle))
    ensures Derive(ps)[FindPlanet(ps, "ASC").value].house == Some(1)
    ensures FindPlanet(Derive(ps), "DSC").Some?
    ensures FindPlanet(Derive(ps), "IC").Some? <==> FindPlanet(ps, "MC").Some? || FindPlanet(ps, "IC").Some?
  {
    DeriveHouses(ps);
    DeriveAxes(ps);
  }

  /** The houses of the derivation, and the parsed bodies unchanged but for theirs. */
  lemma DeriveHouses(ps: seq<Position>)
    requires NonNegative(ps) && FindPlanet(ps, "ASC").Some?
    ensures |Derive(ps)| >= |ps|
    ensures forall k :: 0 <= k < |ps| ==> Derive(ps)[k] == ps[k].(house := Derive(ps)[k].house)
    ensures forall k :: 0 <= k < |Derive(ps)| ==>
      Derive(ps)[k].house == Some(HouseOf(Derive(ps)[k].angle, ps[FindPlanet(ps, "ASC").value].angle))
    ensures Derive(ps)[FindPlanet(ps, "ASC").value].house == Some(1)
  {
    var a := FindPlanet(ps, "ASC").value;
    var asc := ps[a].angle;
    var w := WithAxes(ps, asc);
    var d := AssignHouses(w, asc);
    assert Derive(ps) == d;
    assert |d| == |w| >= |ps|;
    assert forall k :: 0 <= k < |d| ==> d[k] == w[k].(house := Some(HouseOf(w[k].angle, asc)));
    assert forall k :: 0 <= k < |ps| ==> w[k] == ps[k];
    HouseOfRange(asc, asc);
    assert w[a] == ps[a];
  }

  /** The derivation's DSC and IC are those of `WithAxes`. */
  lemma DeriveAxes(ps: seq<Position>)
    requires NonNegative(ps) && FindPlanet(ps, "ASC").Some?
    ensures FindPlanet(Derive(ps), "DSC").Some?
    ensures FindPlanet(Derive(ps), "IC").Some? <==> FindPlanet(ps, "MC").Some? || FindPlanet(ps, "IC").Some?
  {
    var asc := ps[FindPlanet(ps, "ASC").value].angle;
    var w := WithAxes(ps, asc);
    var d := AssignHouses(w, asc);
    assert Derive(ps) == d;
    FindSamePlanets(d, w, "DSC");
    FindSamePlanets(d, w, "IC");
    WithAxesShape(ps, asc);
  }

  // ---------------------------------------------------------------------------------------
  // Aspects

  /** The aspect of the pair `i < j`, if both are core bodies and some table entry admits
      their separation: the first such entry, with the separation and its deviation. */
  function PairAspect(defs: seq<AspectDef>, ps: seq<Position>, i: nat, j: nat): (r: Option<Aspect>)
    requires i < j < |ps|
    ensures r.Some? ==> r.value.planet1 == i && r.value.planet2 == j
  {
    if ps[i].planet !in CoreAspectBodies || ps[j].planet !in CoreAspectBodies then None
    else
      var angleDiff := Separation(ps[i].angle, ps[j].angle);
      match FirstMatch(defs, angleDiff)
      case None => None
      case Some(k) =>
        var def := defs[k];
        Some(Aspect(i, j, def.name, angleDiff, Abs(angleDiff - def.angle), def.color, def.weight, def.style))
  }

  /** A pair has an aspect exactly when both are core bodies and some entry admits their
      separation; the aspect then carries the first such entry's name and styling, the
      separation, and its deviation from the exact angle, which is within the entry's orb. */
  lemma PairAspectShape(defs: seq<AspectDef>, ps: seq<Position>, i: nat, j: nat)
    requires i < j < |ps|
    ensures PairAspect(defs, ps, i, j).Some? <==>
      ps[i].planet in CoreAspectBodies && ps[j].planet in CoreAspectBodies && FirstMatch(defs, Separation(ps[i].angle, ps[j].angle)).Some?
    ensures PairAspect(defs, ps, i, j).Some? ==>
      var r := PairAspect(defs, ps, i, j).value;
      var k := FirstMatch(defs, Separation(ps[i].angle, ps[j].angle)).value;
      && r.aspect == defs[k].name
      && r.angle == Separation(ps[i].angle, ps[j].angle)
      && r.orb == Abs(r.angle - defs[k].angle) <= defs[k].orb
      && r.color == defs[k].color && r.weight == defs[k].weight
      && r.style == defs[k].style
  {
    FirstMatchSpec(defs, Separation(ps[i].angle, ps[j].angle));
  }

  /** Since the orbs are disjoint, whichever entry admits a core pair's separation is the
      aspect recorded for it. */
  lemma PairAspectAnyMatch(defs: seq<AspectDef>, ps: seq<Position>, i: nat, j: nat, k: nat)
    requires i < j < |ps| && ps[i].planet in CoreAspectBodies && ps[j].planet in CoreAspectBodies
    requires OrbsDisjoint(defs) && k < |defs| && Matches(defs[k], Separation(ps[i].angle, ps[j].angle))
    ensures PairAspect(defs, ps, i, j).Some? && PairAspect(defs, ps, i, j).value.aspect == defs[k].name
  {
    FirstMatchIsOnlyMatch(defs, Separation(ps[i].angle, ps[j].angle), k);
    PairAspectShape(defs, ps, i, j);
  }

  /** The scan that stops at entry `k` records that entry. */
  lemma PairAspectFound(defs: seq<AspectDef>, ps: seq<Position>, i: nat, j: nat, k: nat)
    requires i < j < |ps| && ps[i].planet in CoreAspectBodies && ps[j].planet in CoreAspectBodies
    requires k < |defs| && Matches(defs[k], Separation(ps[i].angle, ps[j].angle))
    requires forall m :: 0 <= m < k ==> !Matches(defs[m], Separation(ps[i].angle, ps[j].angle))
    ensures var d, def := Separation(ps[i].angle, ps[j].angle), defs[k];
      PairAspect(defs, ps, i, j) == Some(Aspect(i, j, def.name, d, Abs(d - def.angle), def.color, def.weight, def.style))
  {
    FirstMatchSpec(defs, Separation(ps[i].angle, ps[j].angle));
  }

  /** The scan that runs off the table records nothing. */
  lemma PairAspectNotFound(defs: seq<AspectDef>, ps: seq<Position>, i: nat, j: nat)
    requires i < j < |ps|
    requires forall m :: 0 <= m < |defs| ==> !Matches(defs[m], Separation(ps[i].angle, ps[j].angle))
    ensures PairAspect(defs, ps, i, j) == None
  {
    FirstMatchSpec(defs, Separation(ps[i].angle, ps[j].angle));
  }

  function OptionList(a: Option<Aspect>): seq<Aspect>
  {
    if a.Some? then [a.value] else []
  }

  /** The aspects the inner loop of row `i` has pushed once `j` is reached. */
  function RowAspects(defs: seq<AspectDef>, ps: seq<Position>, i: nat, j: nat): seq<Aspect>
    requires i < j <= |ps|
    decreases j
  {
    if j == i + 1 then [] else RowAspects(defs, ps, i, j - 1) + OptionList(PairAspect(defs, ps, i, j - 1))
  }

  /** The aspects the outer loop has pushed once `i` is reached. */
  function AspectsBefore(defs: seq<AspectDef>, ps: seq<Position>, i: nat): seq<Aspect>
    requires i <= |ps|
  {
    if i == 0 then [] else AspectsBefore(defs, ps, i - 1) + RowAspects(defs, ps, i - 1, |ps|)
  }

  /** The outer loop's step: row `i` follows what was pushed before it. */
  lemma AspectsBeforeStep(defs: seq<AspectDef>, ps: seq<Position>, i: nat, pushed: seq<Aspect>)
    requires 0 < i <= |ps| && pushed == AspectsBefore(defs, ps, i - 1) + RowAspects(defs, ps, i - 1, |ps|)
    ensures pushed == AspectsBefore(defs, ps, i)
  {
  }

  /** `calculateAspects`' result as a function of `chartData`. */
  function AspectsOf(ps: seq<Position>): seq<Aspect>
  {
    AspectsBefore(AspectDefs, ps, |ps|)
  }

  /** `row` holds aspects of pairs `(i, b)` with `i < b < j`, in increasing `b`. */
  predicate RowOrdered(row: seq<Aspect>, i: nat, j: nat)
  {
    && (forall x :: 0 <= x < |row| ==> row[x].planet1 == i && i < row[x].planet2 < j)
    && (forall x, y :: 0 <= x < y < |row| ==> row[x].planet2 < row[y].planet2)
  }

  /** `a` comes before `b` in the scan order of the pairs. */
  predicate ScanBefore(a: Aspect, b: Aspect)
  {
    a.planet1 < b.planet1 || (a.planet1 == b.planet1 && a.planet2 < b.planet2)
  }

  /** `r` holds aspects of pairs `a < b < n` with `a < i`, strictly in scan order. */
  predicate ScanOrdered(r: seq<Aspect>, i: nat, n: nat)
  {
    && (forall x :: 0 <= x < |r| ==> r[x].planet1 < i && r[x].planet1 < r[x].planet2 < n)
    && (forall x, y :: 0 <= x < y < |r| ==> ScanBefore(r[x], r[y]))
  }

  /** Every aspect in `r` is the aspect of its own pair. */
  predicate AllSound(defs: seq<AspectDef>, ps: seq<Position>, r: seq<Aspect>)
  {
    forall x :: 0 <= x < |r| ==> SoundAspect(defs, ps, r[x])
  }

  /** `a` is the aspect of its own pair. */
  predicate SoundAspect(defs: seq<AspectDef>, ps: seq<Position>, a: Aspect)
  {
    a.planet1 < a.planet2 < |ps| && PairAspect(defs, ps, a.planet1, a.planet2) == Some(a)
  }

  lemma RowOrderedSnoc(prev: seq<Aspect>, extra: seq<Aspect>, r: seq<Aspect>, i: nat, j: nat)
    requires i < j && RowOrdered(prev, i, j) && r == prev + extra
    requires |extra| <= 1 && forall x :: 0 <= x < |extra| ==> extra[x].planet1 == i && extra[x].planet2 == j
    ensures RowOrdered(r, i, j + 1)
  {
    forall x | 0 <= x < |r| ensures r[x].planet1 == i && i < r[x].planet2 < j + 1 {
      if x < |prev| { assert r[x] == prev[x]; } else { assert r[x] == extra[x - |prev|]; }
    }
    forall x, y | 0 <= x < y < |r| ensures r[x].planet2 < r[y].planet2 {
      assert r[x] == prev[x];
      if y < |prev| { assert r[y] == prev[y]; } else { assert r[y] == extra[y - |prev|]; }
    }
  }

  lemma ScanOrderedAppendRow(prev: seq<Aspect>, row: seq<Aspect>, r: seq<Aspect>, i: nat, n: nat)
    requires ScanOrdered(prev, i, n) && RowOrdered(row, i, n) && r == prev + row
    ensures ScanOrdered(r, i + 1, n)
  {
    forall x | 0 <= x < |r| ensures r[x].planet1 < i + 1 && r[x].planet1 < r[x].planet2 < n {
      if x < |prev| { assert r[x] == prev[x]; } else { assert r[x] == row[x - |prev|]; }
    }
    forall x, y | 0 <= x < y < |r| ensures ScanBefore(r[x], r[y]) {
      if y < |prev| {
        assert r[x] == prev[x] && r[y] == prev[y];
      } else if x < |prev| {
        assert r[x] == prev[x] && r[y] == row[y - |prev|];
      } else {
        assert r[x] == row[x - |prev|] && r[y] == row[y - |prev|];
      }
    }
  }

  lemma AllSoundAppend(defs: seq<AspectDef>, ps: seq<Position>, a: seq<Aspect>, b: seq<Aspect>, r: seq<Aspect>)
    requires AllSound(defs, ps, a) && AllSound(defs, ps, b) && r == a + b
    ensures AllSound(defs, ps, r)
  {
    forall x | 0 <= x < |r| ensures SoundAspect(defs, ps, r[x]) {
      if x < |a| { assert r[x] == a[x]; } else { assert r[x] == b[x - |a|]; }
    }
  }

  /** Row `i` up to `j` holds aspects of the pairs `(i, i+1) .. (i, j-1)`, in that order. */
  lemma {:induction false} RowAspectsOrdered(defs: seq<AspectDef>, ps: seq<Position>, i: nat, j: nat)
    requires i < j <= |ps|
    ensures RowOrdered(RowAspects(defs, ps, i, j), i, j)
    decreases j
  {
    if j > i + 1 {
      RowAspectsOrdered(defs, ps, i, j - 1);
      var prev := RowAspects(defs, ps, i, j - 1);
      var extra := OptionList(PairAspect(defs, ps, i, j - 1));
      RowOrderedSnoc(prev, extra, RowAspects(defs, ps, i, j), i, j - 1);
    }
  }

  /** Each aspect of row `i` is the aspect of its own pair. */
  lemma {:induction false} RowAspectsSound(defs: seq<AspectDef>, ps: seq<Position>, i: nat, j: nat)
    requires i < j <= |ps|
    ensures AllSound(defs, ps, RowAspects(defs, ps, i, j))
    decreases j
  {
    if j > i + 1 {
      RowAspectsSound(defs, ps, i, j - 1);
      var prev := RowAspects(defs, ps, i, j - 1);
      var extra := OptionList(PairAspect(defs, ps, i, j - 1));
      AllSoundAppend(defs, ps, prev, extra, RowAspects(defs, ps, i, j));
    }
  }

  /** Row `i` holds the aspect of every pair `(i, b)`, `b < j`, that has one. */
  lemma {:induction false} RowAspectsComplete(defs: seq<AspectDef>, ps: seq<Position>, i: nat, j: nat)
    requires i < j <= |ps|
    ensures forall b :: i < b < j && PairAspect(defs, ps, i, b).Some? ==> PairAspect(defs, ps, i, b).value in RowAspects(defs, ps, i, j)
    decreases j
  {
    if j > i + 1 {
      RowAspectsComplete(defs, ps, i, j - 1);
      var prev := RowAspects(defs, ps, i, j - 1);
      var extra := OptionList(PairAspect(defs, ps, i, j - 1));
      assert RowAspects(defs, ps, i, j) == prev + extra;
      forall b | i < b < j && PairAspect(defs, ps, i, b).Some? ensures PairAspect(defs, ps, i, b).value in prev + extra {
        if b < j - 1 {
          assert PairAspect(defs, ps, i, b).value in prev;
        } else {
          assert extra == [PairAspect(defs, ps, i, b).value];
        }
      }
    }
  }

  /** Once row `i` is reached the list holds aspects of pairs `a < b` with `a < i`, strictly
      in scan order. */
  lemma {:induction false} AspectsBeforeOrdered(defs: seq<AspectDef>, ps: seq<Position>, i: nat)
    requires i <= |ps|
    ensures ScanOrdered(AspectsBefore(defs, ps, i), i, |ps|)
  {
    if i > 0 {
      AspectsBeforeOrdered(defs, ps, i - 1);
      RowAfterOrdered(defs, ps, i - 1, AspectsBefore(defs, ps, i - 1));
    }
  }

  /** Row `i` pushed after an ordered list of the rows before it leaves it ordered. */
  lemma RowAfterOrdered(defs: seq<AspectDef>, ps: seq<Position>, i: nat, prev: seq<Aspect>)
    requires i < |ps| && ScanOrdered(prev, i, |ps|)
    ensures ScanOrdered(prev + RowAspects(defs, ps, i, |ps|), i + 1, |ps|)
  {
    var row := RowAspects(defs, ps, i, |ps|);
    RowAspectsOrdered(defs, ps, i, |ps|);
    ScanOrderedAppendRow(prev, row, prev + row, i, |ps|);
  }

  /** Every aspect pushed is the aspect of its own pair. */
  lemma {:induction false} AspectsBeforeSound(defs: seq<AspectDef>, ps: seq<Position>, i: nat)
    requires i <= |ps|
    ensures AllSound(defs, ps, AspectsBefore(defs, ps, i))
  {
    if i > 0 {
      AspectsBeforeSound(defs, ps, i - 1);
      RowAfterSound(defs, ps, i - 1, AspectsBefore(defs, ps, i - 1));
    }
  }

  /** Row `i` pushed after sound aspects leaves them sound. */
  lemma RowAfterSound(defs: seq<AspectDef>, ps: seq<Position>, i: nat, prev: seq<Aspect>)
    requires i < |ps| && AllSound(defs, ps, prev)
    ensures AllSound(defs, ps, prev + RowAspects(defs, ps, i, |ps|))
  {
    var row := RowAspects(defs, ps, i, |ps|);
    RowAspectsSound(defs, ps, i, |ps|);
    AllSoundAppend(defs, ps, prev, row, prev + row);
  }

  /** Once row `i` is reached, the aspect of every pair `a < b` with `a < i` that has one has
      been pushed. */
  lemma {:induction false} AspectsBeforeComplete(defs: seq<AspectDef>, ps: seq<Position>, i: nat)
    requires i <= |ps|
    ensures forall a, b :: 0 <= a < i && a < b < |ps| && PairAspect(defs, ps, a, b).Some? ==>
      PairAspect(defs, ps, a, b).value in AspectsBefore(defs, ps, i)
  {
    if i > 0 {
      AspectsBeforeComplete(defs, ps, i - 1);
      RowAfterComplete(defs, ps, i - 1, AspectsBefore(defs, ps, i - 1));
    }
  }

  /** Row `i` pushed after a list holding the aspects of the rows before it holds those of
      row `i` too. */
  lemma RowAfterComplete(defs: seq<AspectDef>, ps: seq<Position>, i: nat, prev: seq<Aspect>)
    requires i < |ps|
    requires forall a, b :: 0 <= a < i && a < b < |ps| && PairAspect(defs, ps, a, b).Some? ==>
      PairAspect(defs, ps, a, b).value in prev
    ensures forall a, b :: 0 <= a < i + 1 && a < b < |ps| && PairAspect(defs, ps, a, b).Some? ==>
      PairAspect(defs, ps, a, b).value in prev + RowAspects(defs, ps, i, |ps|)
  {
    var row := RowAspects(defs, ps, i, |ps|);
    RowAspectsComplete(defs, ps, i, |ps|);
    forall a, b | 0 <= a < i + 1 && a < b < |ps| && PairAspect(defs, ps, a, b).Some?
      ensures PairAspect(defs, ps, a, b).value in prev + row
    {
      if a < i {
        assert PairAspect(defs, ps, a, b).value in prev;
      } else {
        assert PairAspect(defs, ps, a, b).value in row;
      }
    }
  }

  /** The aspect list holds at most one aspect per pair, and for a pair `i < j` it holds one
      exactly when the pair is a core pair some entry admits: then it is that pair's aspect. */
  lemma AspectsOfPair(ps: seq<Position>, i: nat, j: nat)
    requires i < j < |ps|
    ensures (exists x :: 0 <= x < |AspectsOf(ps)| && AspectsOf(ps)[x].planet1 == i && AspectsOf(ps)[x].planet2 == j)
        <==> PairAspect(AspectDefs, ps, i, j).Some?
    ensures forall x :: 0 <= x < |AspectsOf(ps)| && AspectsOf(ps)[x].planet1 == i && AspectsOf(ps)[x].planet2 == j ==>
      Some(AspectsOf(ps)[x]) == PairAspect(AspectDefs, ps, i, j)
    ensures forall x, y :: 0 <= x < y < |AspectsOf(ps)| ==>
      (AspectsOf(ps)[x].planet1, AspectsOf(ps)[x].planet2) != (AspectsOf(ps)[y].planet1, AspectsOf(ps)[y].planet2)
  {
    AspectsBeforeOrdered(AspectDefs, ps, |ps|);
    AspectsBeforeSound(AspectDefs, ps, |ps|);
    AspectsBeforeComplete(AspectDefs, ps, |ps|);
    var r := AspectsOf(ps);
    if PairAspect(AspectDefs, ps, i, j).Some? {
      var a := PairAspect(AspectDefs, ps, i, j).value;
      assert a in r;
      var x :| 0 <= x < |r| && r[x] == a;
      assert r[x].planet1 == i && r[x].planet2 == j;
    }
  }

  // ---------------------------------------------------------------------------------------
  // Glyph layout

  /** `planetSymbols[p.planet]` with the axis points removed, and the extended bodies removed
      too when they are switched off. */
  predicate Drawable(p: Position, showExtended: bool)
  {
    HasSymbol(p.planet) && p.planet !in AxisNames && (showExtended || p.planet !in ExtendedNames)
  }

  /** A name every object inherits, such as `toString`, passes the `planetSymbols` test, so a
      body of that name is drawn and laid out like a planet. */
  lemma DrawableInherited(p: Position, showExtended: bool)
    requires p.planet in PrototypeNames
    ensures Drawable(p, showExtended)
  {
    assert p.planet !in AxisNames && p.planet !in ExtendedNames;
  }

  /** `planetsToDraw`: the drawable bodies, in `chartData` order (`DrawListOrder`). */
  function DrawList(ps: seq<Position>, showExtended: bool): (r: seq<Position>)
    ensures forall x :: 0 <= x < |r| ==> Drawable(r[x], showExtended)
    ensures forall k :: 0 <= k < |ps| && Drawable(ps[k], showExtended) ==> ps[k] in r
    ensures |r| <= |ps|
  {
    if ps == [] then []
    else
      var front := DrawList(ps[..|ps| - 1], showExtended);
      assert forall k :: 0 <= k < |ps| - 1 ==> ps[k] == ps[..|ps| - 1][k];
      front + (if Drawable(ps[|ps| - 1], showExtended) then [ps[|ps| - 1]] else [])
  }

  function AngleOf(p: Position): real
  {
    p.angle
  }

  /** `cluster.reduce((sum, p) => sum + p.angle, 0)` */
  function AngleSum(c: seq<Position>): (r: real)
    ensures r == Sum(seq(|c|, i requires 0 <= i < |c| => c[i].angle))
  {
    if c == [] then 0.0
    else
      assert seq(|c| - 1, i requires 0 <= i < |c| - 1 => c[..|c| - 1][i].angle)
          == seq(|c|, i requires 0 <= i < |c| => c[i].angle)[..|c| - 1];
      AngleSum(c[..|c| - 1]) + c[|c| - 1].angle
  }

  /** The visual degrees one cluster of more than one body assigns, member by member. */
  function ClusterWrites(c: seq<Position>): (w: seq<(string, real)>)
    ensures |c| > 1 ==> |w| == |c| && forall i :: 0 <= i < |c| ==>
      w[i] == (c[i].planet, FanDegree(|c|, AngleSum(c) / |c| as real, i))
    ensures |c| <= 1 ==> w == []
  {
    if |c| <= 1 then []
    else seq(|c|, i requires 0 <= i < |c| => (c[i].planet, FanDegree(|c|, AngleSum(c) / |c| as real, i)))
  }

  /** Every assignment the `clusters.forEach` makes, in order. */
  function FanWrites(css: seq<seq<Position>>): seq<(string, real)>
  {
    if css == [] then [] else FanWrites(css[..|css| - 1]) + ClusterWrites(css[|css| - 1])
  }

  /** `chartData.find(cp => cp.planet === name).visualDegree = v`, a no-op when not found. */
  function ApplyWrite(ps: seq<Position>, w: (string, real)): (r: seq<Position>)
    ensures |r| == |ps|
  {
    match FindPlanet(ps, w.0)
    case None => ps
    case Some(k) => ps[k := ps[k].(visualDegree := Some(w.1))]
  }

  /** A write changes only the visual degree of the first position with its name, to its
      value, and nothing when no position has that name. */
  lemma ApplyWriteShape(ps: seq<Position>, w: (string, real))
    ensures forall k :: 0 <= k < |ps| ==> ApplyWrite(ps, w)[k] == ps[k].(visualDegree := ApplyWrite(ps, w)[k].visualDegree)
    ensures forall k :: 0 <= k < |ps| && FindPlanet(ps, w.0) != Some(k) ==> ApplyWrite(ps, w)[k] == ps[k]
    ensures FindPlanet(ps, w.0).Some? ==> ApplyWrite(ps, w)[FindPlanet(ps, w.0).value].visualDegree == Some(w.1)
  {
  }

  function ApplyWrites(ps: seq<Position>, ws: seq<(string, real)>): (r: seq<Position>)
    ensures |r| == |ps|
  {
    if ws == [] then ps else ApplyWrite(ApplyWrites(ps, ws[..|ws| - 1]), ws[|ws| - 1])
  }

  /** Writes change nothing but visual degrees. */
  lemma {:induction false} ApplyWritesShape(ps: seq<Position>, ws: seq<(string, real)>)
    ensures forall k :: 0 <= k < |ps| ==> ApplyWrites(ps, ws)[k] == ps[k].(visualDegree := ApplyWrites(ps, ws)[k].visualDegree)
  {
    if ws != [] {
      ApplyWritesShape(ps, ws[..|ws| - 1]);
      ApplyWriteShape(ApplyWrites(ps, ws[..|ws| - 1]), ws[|ws| - 1]);
    }
  }

  /** The layout's effect on `chartData`, given the drawing options. */
  function LaidOut(ps: seq<Position>, showExtended: bool): seq<Position>
  {
    ApplyWrites(ps, FanWrites(Clusters(ps, showExtended)))
  }

  /** One write, in the two cases of `find`. */
  lemma ApplyWriteCases(ps: seq<Position>, w: (string, real))
    ensures FindPlanet(ps, w.0).None? ==> ApplyWrite(ps, w) == ps
    ensures FindPlanet(ps, w.0).Some? ==>
      ApplyWrite(ps, w) == ps[FindPlanet(ps, w.0).value := ps[FindPlanet(ps, w.0).value].(visualDegree := Some(w.1))]
  {
  }

  /** One step of a loop that performs the writes `ws` in order. */
  lemma WriteStep(ps: seq<Position>, ws: seq<(string, real)>, i: nat, cur: seq<Position>)
    requires i < |ws| && cur == ApplyWrites(ps, ws[..i])
    ensures FindPlanet(cur, ws[i].0).None? ==> ApplyWrites(ps, ws[..i + 1]) == cur
    ensures FindPlanet(cur, ws[i].0).Some? ==>
      ApplyWrites(ps, ws[..i + 1])
        == cur[FindPlanet(cur, ws[i].0).value := cur[FindPlanet(cur, ws[i].0).value].(visualDegree := Some(ws[i].1))]
  {
    assert ws[..i + 1] == ws[..i] + [ws[i]];
    ApplyWritesSnoc(ps, ws[..i], ws[i]);
    ApplyWriteCases(cur, ws[i]);
  }

  /** One step of the `cluster.forEach` loop: member `i` is written its fan degree `v`. */
  lemma ClusterWriteStep(ps: seq<Position>, cluster: seq<Position>, i: nat, cur: seq<Position>, v: real)
    requires 1 < |cluster| && i < |cluster| && cur == ApplyWrites(ps, ClusterWrites(cluster)[..i])
    requires v == FanDegree(|cluster|, AngleSum(cluster) / |cluster| as real, i)
    ensures FindPlanet(cur, cluster[i].planet).None? ==> ApplyWrites(ps, ClusterWrites(cluster)[..i + 1]) == cur
    ensures FindPlanet(cur, cluster[i].planet).Some? ==>
      ApplyWrites(ps, ClusterWrites(cluster)[..i + 1])
        == cur[FindPlanet(cur, cluster[i].planet).value :=
               cur[FindPlanet(cur, cluster[i].planet).value].(visualDegree := Some(v))]
  {
    var ws := ClusterWrites(cluster);
    assert ws[i] == (cluster[i].planet, v);
    WriteStep(ps, ws, i, cur);
  }

  lemma ApplyWritesSnoc(ps: seq<Position>, ws: seq<(string, real)>, w: (string, real))
    ensures ApplyWrites(ps, ws + [w]) == ApplyWrite(ApplyWrites(ps, ws), w)
  {
    assert (ws + [w])[..|ws|] == ws;
  }

  lemma {:induction false} ApplyWritesAppend(ps: seq<Position>, a: seq<(string, real)>, b: seq<(string, real)>)
    ensures ApplyWrites(ps, a + b) == ApplyWrites(ApplyWrites(ps, a), b)
    decreases |b|
  {
    if b != [] {
      var b' := b[..|b| - 1];
      assert a + b == (a + b') + [b[|b| - 1]];
      ApplyWritesSnoc(ps, a + b', b[|b| - 1]);
      ApplyWritesAppend(ps, a, b');
      ApplyWritesSnoc(ApplyWrites(ps, a), b', b[|b| - 1]);
      assert b == b' + [b[|b| - 1]];
    } else {
      assert a + b == a;
    }
  }

  /** The loop's step over the clusters: the writes of cluster `c - 1` follow those before it. */
  lemma FanWritesStep(ps: seq<Position>, css: seq<seq<Position>>, c: nat, now: seq<Position>)
    requires 0 < c <= |css|
    requires now == ApplyWrites(ApplyWrites(ps, FanWrites(css[..c - 1])), ClusterWrites(css[c - 1]))
    ensures now == ApplyWrites(ps, FanWrites(css[..c]))
  {
    assert css[..c][..c - 1] == css[..c - 1];
    ApplyWritesAppend(ps, FanWrites(css[..c - 1]), ClusterWrites(css[c - 1]));
  }

  /** The writes never rename anything, so `find` by name sees the same positions throughout. */
  lemma {:induction false} ApplyWritesNames(ps: seq<Position>, ws: seq<(string, real)>, name: string)
    ensures FindPlanet(ApplyWrites(ps, ws), name) == FindPlanet(ps, name)
  {
    ApplyWritesShape(ps, ws);
    FindSamePlanets(ApplyWrites(ps, ws), ps, name);
  }

  /** A position that no write's `find` lands on keeps every field. Which positions those are
      depends on the names: `LaidOutPlacement` settles it when no two drawable names repeat. */
  lemma {:induction false} ApplyWritesUntouched(ps: seq<Position>, ws: seq<(string, real)>, k: nat)
    requires k < |ps| && forall t :: 0 <= t < |ws| ==> FindPlanet(ps, ws[t].0) != Some(k)
    ensures ApplyWrites(ps, ws)[k] == ps[k]
    decreases |ws|
  {
    if ws != [] {
      var front := ws[..|ws| - 1];
      ApplyWritesUntouched(ps, front, k);
      ApplyWritesNames(ps, front, ws[|ws| - 1].0);
      ApplyWriteShape(ApplyWrites(ps, front), ws[|ws| - 1]);
    }
  }

  /** When no later write uses the same name, write `t` is what its position ends up with. */
  lemma {:induction false} ApplyWritesLastWins(ps: seq<Position>, ws: seq<(string, real)>, t: nat)
    requires t < |ws| && FindPlanet(ps, ws[t].0).Some?
    requires forall u :: t < u < |ws| ==> ws[u].0 != ws[t].0
    ensures ApplyWrites(ps, ws)[FindPlanet(ps, ws[t].0).value].visualDegree == Some(ws[t].1)
    decreases |ws|
  {
    var front := ws[..|ws| - 1];
    var k := FindPlanet(ps, ws[t].0).value;
    ApplyWritesNames(ps, front, ws[t].0);
    ApplyWriteShape(ApplyWrites(ps, front), ws[|ws| - 1]);
    if t < |ws| - 1 {
      ApplyWritesLastWins(ps, front, t);
      ApplyWritesNames(ps, front, ws[|ws| - 1].0);
    }
  }

  /** The layout changes nothing but visual degrees. */
  lemma LaidOutShape(ps: seq<Position>, showExtended: bool)
    ensures |LaidOut(ps, showExtended)| == |ps|
    ensures forall k :: 0 <= k < |ps| ==>
      LaidOut(ps, showExtended)[k] == ps[k].(visualDegree := LaidOut(ps, showExtended)[k].visualDegree)
  {
    ApplyWritesShape(ps, FanWrites(ClustersOf(SortBy(DrawList(ps, showExtended), AngleOf), AngleOf)));
  }

  /** `DrawList` is the order-keeping filter of `chartData`: it distributes over
      concatenation, and a single position is kept exactly when it is drawable. */
  lemma {:induction false} DrawListOrder(a: seq<Position>, b: seq<Position>, showExtended: bool)
    ensures DrawList(a + b, showExtended) == DrawList(a, showExtended) + DrawList(b, showExtended)
    ensures |a| == 1 ==> DrawList(a, showExtended) == if Drawable(a[0], showExtended) then [a[0]] else []
    decreases |b|
  {
    if b == [] {
      assert a + b == a;
    } else {
      var ab, b' := a + b, b[..|b| - 1];
      var last := b[|b| - 1];
      var tail: seq<Position> := if Drawable(last, showExtended) then [last] else [];
      assert ab[..|ab| - 1] == a + b' && ab[|ab| - 1] == last;
      assert DrawList(ab, showExtended) == DrawList(a + b', showExtended) + tail;
      assert DrawList(b, showExtended) == DrawList(b', showExtended) + tail;
      DrawListOrder(a, b', showExtended);
      AppendAssoc(DrawList(a, showExtended), DrawList(b', showExtended), tail);
    }
    if |a| == 1 {
      assert a[..0] == [];
    }
  }

  /** No two drawable positions of `chartData` share a name. */
  predicate DrawnNamesDistinct(ps: seq<Position>, showExtended: bool)
  {
    forall a, b :: 0 <= a < b < |ps| && Drawable(ps[a], showExtended) && Drawable(ps[b], showExtended) ==>
      ps[a].planet != ps[b].planet
  }

  predicate DistinctNames(s: seq<Position>)
  {
    forall a, b :: 0 <= a < b < |s| ==> s[a].planet != s[b].planet
  }

  /** Every drawn body is a position of `chartData`, and drawable names that are distinct
      there are distinct in the drawn list. */
  lemma {:induction false} DrawListFrom(ps: seq<Position>, showExtended: bool)
    ensures forall x :: 0 <= x < |DrawList(ps, showExtended)| ==> DrawList(ps, showExtended)[x] in ps
    ensures DrawnNamesDistinct(ps, showExtended) ==> DistinctNames(DrawList(ps, showExtended))
  {
    if ps != [] {
      var init := ps[..|ps| - 1];
      var front := DrawList(init, showExtended);
      DrawListFrom(init, showExtended);
      assert forall x :: 0 <= x < |front| ==> front[x] in ps by {
        forall x | 0 <= x < |front| ensures front[x] in ps {
          var a :| 0 <= a < |init| && init[a] == front[x];
          assert ps[a] == front[x];
        }
      }
      if DrawnNamesDistinct(ps, showExtended) {
        assert DrawnNamesDistinct(init, showExtended) by {
          forall a, b | 0 <= a < b < |init| && Drawable(init[a], showExtended) && Drawable(init[b], showExtended)
            ensures init[a].planet != init[b].planet
          {
            assert init[a] == ps[a] && init[b] == ps[b];
          }
        }
        forall x | 0 <= x < |front| ensures front[x].planet != ps[|ps| - 1].planet || !Drawable(ps[|ps| - 1], showExtended) {
          var a :| 0 <= a < |init| && init[a] == front[x];
          assert ps[a] == front[x];
        }
      }
    }
  }

  /** A rearrangement of a list without repeated names repeats no name. */
  lemma PermutationNames(a: seq<Position>, b: seq<Position>)
    requires DistinctNames(a) && multiset(b) == multiset(a)
    ensures DistinctNames(b)
  {
    forall x, y | 0 <= x < y < |b| ensures b[x].planet != b[y].planet {
      if b[x].planet == b[y].planet {
        assert b[x] in multiset(a) && b[y] in multiset(a);
        var i :| 0 <= i < |a| && a[i] == b[x];
        var j :| 0 <= j < |a| && a[j] == b[y];
        assert i == j;
        CountTwo(b, x, y);
        CountOne(a, b[x]);
        assert false;
      }
    }
  }

  /** The clusters of the drawn bodies, as `drawPlanets` forms them. */
  function Clusters(ps: seq<Position>, showExtended: bool): seq<seq<Position>>
  {
    ClustersOf(SortBy(DrawList(ps, showExtended), AngleOf), AngleOf)
  }

  /** The clusters hold every drawn body once, as a drawable position of `chartData`. */
  lemma ClustersDrawn(ps: seq<Position>, showExtended: bool)
    ensures forall x :: 0 <= x < |Flatten(Clusters(ps, showExtended))| ==>
      Flatten(Clusters(ps, showExtended))[x] in ps && Drawable(Flatten(Clusters(ps, showExtended))[x], showExtended)
    ensures DrawnNamesDistinct(ps, showExtended) ==> DistinctNames(Flatten(Clusters(ps, showExtended)))
  {
    var drawn := DrawList(ps, showExtended);
    var sorted := SortBy(drawn, AngleOf);
    ClustersOfShape(sorted, AngleOf);
    DrawListFrom(ps, showExtended);
    forall x | 0 <= x < |sorted| ensures sorted[x] in ps && Drawable(sorted[x], showExtended) {
      assert sorted[x] in multiset(drawn);
    }
    if DrawnNamesDistinct(ps, showExtended) {
      PermutationNames(drawn, sorted);
    }
  }

  /** The writes of one cluster name its members, in order. */
  lemma ClusterWriteNames(c: seq<Position>)
    ensures |ClusterWrites(c)| <= |c|
    ensures forall t :: 0 <= t < |ClusterWrites(c)| ==> ClusterWrites(c)[t].0 == c[t].planet
  {
  }

  /** No cluster member is named `n`, so no write is either. */
  lemma {:induction false} FanWritesAvoid(css: seq<seq<Position>>, n: string)
    requires forall x :: 0 <= x < |Flatten(css)| ==> Flatten(css)[x].planet != n
    ensures forall t :: 0 <= t < |FanWrites(css)| ==> FanWrites(css)[t].0 != n
  {
    if css != [] {
      var init, last := css[..|css| - 1], css[|css| - 1];
      var flat := Flatten(css);
      var front: seq<(string, real)> := FanWrites(init);
      var tail: seq<(string, real)> := ClusterWrites(last);
      assert flat == Flatten(init) + last;
      assert FanWrites(css) == front + tail;
      assert forall x :: 0 <= x < |Flatten(init)| ==> Flatten(init)[x] == flat[x];
      FanWritesAvoid(init, n);
      ClusterWriteNames(last);
      forall t | 0 <= t < |front + tail| ensures (front + tail)[t].0 != n {
        if t >= |front| {
          var u := t - |front|;
          assert (front + tail)[t] == tail[u];
          assert last[u] == flat[|Flatten(init)| + u];
        }
      }
    }
  }

  /** With no name repeated among the members, the first position named after member `i` of
      cluster `ci` ends up with that member's fan degree, or its old visual degree when the
      cluster is a single body. */
  lemma {:induction false} FanWritesAt(ps: seq<Position>, css: seq<seq<Position>>, ci: nat, i: nat, k: nat)
    requires ci < |css| && i < |css[ci]| && DistinctNames(Flatten(css))
    requires FindPlanet(ps, css[ci][i].planet) == Some(k)
    ensures ApplyWrites(ps, FanWrites(css))[k].visualDegree ==
      if |css[ci]| > 1 then Some(FanDegree(|css[ci]|, AngleSum(css[ci]) / |css[ci]| as real, i))
      else ps[k].visualDegree
    decreases |css|, 1
  {
    if ci == |css| - 1 {
      FanWritesAtLast(ps, css, i, k);
    } else {
      FanWritesAtEarlier(ps, css, ci, i, k);
    }
  }

  /** The two parts of a list without repeated names repeat no name, within or between them. */
  lemma DistinctSplit(a: seq<Position>, b: seq<Position>)
    requires DistinctNames(a + b)
    ensures DistinctNames(a) && DistinctNames(b)
    ensures forall x, y :: 0 <= x < |a| && 0 <= y < |b| ==> a[x].planet != b[y].planet
  {
    assert forall x :: 0 <= x < |a| ==> (a + b)[x] == a[x];
    assert forall y :: 0 <= y < |b| ==> (a + b)[|a| + y] == b[y];
  }

  /** A position whose name no write uses keeps every field. */
  lemma ApplyWritesOtherNames(ps: seq<Position>, ws: seq<(string, real)>, k: nat)
    requires k < |ps| && forall t :: 0 <= t < |ws| ==> ws[t].0 != ps[k].planet
    ensures ApplyWrites(ps, ws)[k] == ps[k]
  {
    ApplyWritesUntouched(ps, ws, k);
  }

  /** Member `i` of the last cluster: the earlier clusters do not write its name, and no later
      member of its own cluster does either. */
  lemma FanWritesAtLast(ps: seq<Position>, css: seq<seq<Position>>, i: nat, k: nat)
    requires css != [] && i < |css[|css| - 1]| && DistinctNames(Flatten(css))
    requires FindPlanet(ps, css[|css| - 1][i].planet) == Some(k)
    ensures ApplyWrites(ps, FanWrites(css))[k].visualDegree ==
      if |css[|css| - 1]| > 1 then
        Some(FanDegree(|css[|css| - 1]|, AngleSum(css[|css| - 1]) / |css[|css| - 1]| as real, i))
      else ps[k].visualDegree
  {
    var init, last := css[..|css| - 1], css[|css| - 1];
    var n := last[i].planet;
    var front: seq<(string, real)> := FanWrites(init);
    var tail: seq<(string, real)> := ClusterWrites(last);
    assert Flatten(css) == Flatten(init) + last;
    assert FanWrites(css) == front + tail;
    DistinctSplit(Flatten(init), last);
    FanWritesAvoid(init, n);
    ApplyWritesAppend(ps, front, tail);
    var p1 := ApplyWrites(ps, front);
    ApplyWritesOtherNames(ps, front, k);
    if |last| > 1 {
      ClusterWriteNames(last);
      ApplyWritesNames(ps, front, n);
      ApplyWritesLastWins(p1, tail, i);
    } else {
      assert tail == [];
    }
  }

  /** Member `i` of an earlier cluster: the last cluster's writes miss its position. */
  lemma FanWritesAtEarlier(ps: seq<Position>, css: seq<seq<Position>>, ci: nat, i: nat, k: nat)
    requires ci < |css| - 1 && i < |css[ci]| && DistinctNames(Flatten(css))
    requires FindPlanet(ps, css[ci][i].planet) == Some(k)
    ensures ApplyWrites(ps, FanWrites(css))[k].visualDegree ==
      if |css[ci]| > 1 then Some(FanDegree(|css[ci]|, AngleSum(css[ci]) / |css[ci]| as real, i))
      else ps[k].visualDegree
    decreases |css|, 0
  {
    var init, last := css[..|css| - 1], css[|css| - 1];
    var n := css[ci][i].planet;
    var front: seq<(string, real)> := FanWrites(init);
    var tail: seq<(string, real)> := ClusterWrites(last);
    var p1 := ApplyWrites(ps, front);
    assert ApplyWrites(ps, FanWrites(css)) == ApplyWrites(p1, tail) by {
      assert FanWrites(css) == front + tail;
      ApplyWritesAppend(ps, front, tail);
    }
    assert p1[k].visualDegree ==
      if |css[ci]| > 1 then Some(FanDegree(|css[ci]|, AngleSum(css[ci]) / |css[ci]| as real, i))
      else ps[k].visualDegree
    by {
      assert Flatten(css) == Flatten(init) + last;
      DistinctSplit(Flatten(init), last);
      assert css[ci] == init[ci];
      FanWritesAt(ps, init, ci, i, k);
    }
    assert p1[k].planet == n by {
      ApplyWritesShape(ps, front);
    }
    assert forall t :: 0 <= t < |tail| ==> tail[t].0 != n by {
      assert Flatten(css) == Flatten(init) + last;
      DistinctSplit(Flatten(init), last);
      FlattenAt(init, ci, i);
      ClusterWriteNames(last);
      assert css[ci] == init[ci];
      var x := |Flatten(init[..ci])| + i;
      assert Flatten(init)[x].planet == n;
      forall t | 0 <= t < |tail| ensures tail[t].0 != n {
        assert tail[t].0 == last[t].planet;
      }
    }
    ApplyWritesOtherNames(p1, tail, k);
  }

  /** Where the layout puts a drawn body when no two drawable positions share a name: the
      position `find` reaches is the body itself; a member of a cluster of N > 1 gets
      `avg - (N-1)*9/2 + 9i`, and a lone body keeps its earlier visual degree. With repeated
      names this fails: `find` writes the fan degree into the first position of that name. */
  lemma LaidOutPlacement(ps: seq<Position>, showExtended: bool, ci: nat, i: nat)
    requires DrawnNamesDistinct(ps, showExtended)
    requires ci < |Clusters(ps, showExtended)| && i < |Clusters(ps, showExtended)[ci]|
    ensures FindPlanet(ps, Clusters(ps, showExtended)[ci][i].planet).Some?
    ensures ps[FindPlanet(ps, Clusters(ps, showExtended)[ci][i].planet).value] == Clusters(ps, showExtended)[ci][i]
    ensures LaidOut(ps, showExtended)[FindPlanet(ps, Clusters(ps, showExtended)[ci][i].planet).value]
      == Clusters(ps, showExtended)[ci][i].(visualDegree :=
           if |Clusters(ps, showExtended)[ci]| > 1 then
             Some(FanDegree(|Clusters(ps, showExtended)[ci]|,
                            AngleSum(Clusters(ps, showExtended)[ci]) / |Clusters(ps, showExtended)[ci]| as real, i))
           else Clusters(ps, showExtended)[ci][i].visualDegree)
  {
    var css := Clusters(ps, showExtended);
    var c := css[ci][i];
    ClustersDrawn(ps, showExtended);
    FlattenAt(css, ci, i);
    assert c == Flatten(css)[|Flatten(css[..ci])| + i];
    var j :| 0 <= j < |ps| && ps[j] == c;
    var k := FindPlanet(ps, c.planet).value;
    assert Drawable(ps[k], showExtended);
    assert k == j;
    FanWritesAt(ps, css, ci, i, k);
    ApplyWritesShape(ps, FanWrites(css));
  }

  /** The layout writes only drawable bodies: every other position, the axis points among
      them, is left exactly as it was. */
  lemma LaidOutUntouched(ps: seq<Position>, showExtended: bool, k: nat)
    requires k < |ps| && !Drawable(ps[k], showExtended)
    ensures LaidOut(ps, showExtended)[k] == ps[k]
  {
    var css := Clusters(ps, showExtended);
    ClustersDrawn(ps, showExtended);
    FanWritesAvoid(css, ps[k].planet);
    ApplyWritesUntouched(ps, FanWrites(css), k);
  }

  // ---------------------------------------------------------------------------------------
  // Axis lines

  /** `Math.abs(ax - c) < 0.1` allowing one turn either way. */
  predicate NearAngle(ax: real, c: real)
  {
    Abs(ax - c) < 0.1 || Abs(ax - c - 360.0) < 0.1 || Abs(ax - c + 360.0) < 0.1
  }

  /** `isAxis`: some ASC, MC, DSC or IC of `chartData` lies on the cusp. */
  predicate IsAxis(ps: seq<Position>, cuspAngle: real)
  {
    exists k :: 0 <= k < |ps| && ps[k].planet in AxisNames && NearAngle(ps[k].angle, cuspAngle)
  }

  /** For angles in [0, 360) the three comparisons amount to a circular distance under 0.1. */
  lemma NearAngleCircular(ax: real, c: real)
    requires 0.0 <= ax < 360.0 && 0.0 <= c < 360.0
    ensures NearAngle(ax, c) <==> Separation(ax, c) < 0.1
  {
  }

  /** After the derivation the first cusp (an Ascendant inside [0, 360)) and the seventh cusp
      (when the text had no DSC) are drawn as axes. */
  lemma AxisCusps(ps: seq<Position>)
    requires NonNegative(ps) && FindPlanet(ps, "ASC").Some?
    requires ps[FindPlanet(ps, "ASC").value].angle < 360.0
    ensures IsAxis(Derive(ps), CuspsFrom(ps[FindPlanet(ps, "ASC").value].angle)[0].angle)
    ensures FindPlanet(ps, "DSC").None? ==>
      IsAxis(Derive(ps), CuspsFrom(ps[FindPlanet(ps, "ASC").value].angle)[6].angle)
  {
    AxisAsc(ps);
    if FindPlanet(ps, "DSC").None? {
      AxisDsc(ps);
    }
  }

  lemma AxisAsc(ps: seq<Position>)
    requires NonNegative(ps) && FindPlanet(ps, "ASC").Some?
    requires ps[FindPlanet(ps, "ASC").value].angle < 360.0
    ensures IsAxis(Derive(ps), CuspsFrom(ps[FindPlanet(ps, "ASC").value].angle)[0].angle)
  {
    var a := FindPlanet(ps, "ASC").value;
    var asc := ps[a].angle;
    var w := WithAxes(ps, asc);
    var d := AssignHouses(w, asc);
    assert Derive(ps) == d;
    assert w[a] == ps[a];
    assert d[a] == w[a].(house := Some(HouseOf(w[a].angle, asc)));
    CuspsShape(asc, 0);
    assert d[a].planet == AxisNames[0];
    assert Abs(d[a].angle - CuspsFrom(asc)[0].angle) == 0.0;
    assert 0 <= a < |d| && d[a].planet in AxisNames && NearAngle(d[a].angle, CuspsFrom(asc)[0].angle);
  }

  lemma AxisDsc(ps: seq<Position>)
    requires NonNegative(ps) && FindPlanet(ps, "ASC").Some? && FindPlanet(ps, "DSC").None?
    ensures IsAxis(Derive(ps), CuspsFrom(ps[FindPlanet(ps, "ASC").value].angle)[6].angle)
  {
    var asc := ps[FindPlanet(ps, "ASC").value].angle;
    var w := WithAxes(ps, asc);
    assert w[|w| - 1] == OppositePoint("DSC", asc);
    var d := Derive(ps);
    assert d == AssignHouses(w, asc);
    assert d[|w| - 1] == w[|w| - 1].(house := Some(HouseOf(w[|w| - 1].angle, asc)));
    assert d[|w| - 1].planet == "DSC" && d[|w| - 1].angle == Rem360(asc + 180.0);
    assert AxisNames[2] == "DSC";
    assert CuspsFrom(asc)[6].angle == Rem360(asc + 30.0 * 6 as real);
    assert NearAngle(d[|w| - 1].angle, CuspsFrom(asc)[6].angle);
  }

  // ---------------------------------------------------------------------------------------
  // The chart state

  /** How `parseDataAndGenerateHouses` ends. */
  datatype ParseOutcome =
    | ThrewTypeError   // some line has fewer than three fields; nothing is replaced
    | NoAscendant      // `chartData` is replaced, nothing else happens
    | Generated        // cusps, axis points and houses are all derived

  /** The renderer's global chart state. */
  class Chart {
    var chartData: seq<Position>
    var houseCusps: seq<Cusp>
    var aspects: seq<Aspect>

    constructor()
      ensures chartData == [] && houseCusps == [] && aspects == []
    {
      chartData := [];
      houseCusps := [];
      aspects := [];
    }

    /** `parseDataAndGenerateHouses` on the text area's contents. */
    method ParseDataAndGenerateHouses(text: string) returns (outcome: ParseOutcome)
      modifies this
      ensures aspects == old(aspects)
      ensures ParseText(text).None? ==>
        outcome == ThrewTypeError && chartData == old(chartData) && houseCusps == old(houseCusps)
      ensures ParseText(text).Some? && FindPlanet(ParseText(text).value, "ASC").None? ==>
        outcome == NoAscendant && chartData == ParseText(text).value && houseCusps == old(houseCusps)
      ensures ParseText(text).Some? && FindPlanet(ParseText(text).value, "ASC").Some? ==>
        var ps := ParseText(text).value;
        && outcome == Generated && NonNegative(ps) && chartData == Derive(ps)
        && houseCusps == CuspsFrom(ps[FindPlanet(ps, "ASC").value].angle)
    {
      var parsed := ParseText(text);
      if parsed.None? {
        return ThrewTypeError;
      }
      chartData := parsed.value;
      ParseLinesSpec(Split(Trim(text), '\n'));
      assert NonNegative(chartData) by {
        forall k | 0 <= k < |chartData| ensures chartData[k].angle >= 0.0 { assert Fresh(chartData[k]); }
      }
      var ascIndex := FindPlanet(chartData, "ASC");
      if ascIndex.None? {
        return NoAscendant;
      }
      var asc := chartData[ascIndex.value];

      GenerateCusps(asc.angle);
      PushAxisPoints(asc.angle);
      AssignHousesInPlace(asc.angle);
      return Generated;
    }

    /** The twelve equal-house cusps, 30 degrees apart from the Ascendant. */
    method GenerateCusps(asc: real)
      modifies this
      ensures houseCusps == CuspsFrom(asc)
      ensures chartData == old(chartData) && aspects == old(aspects)
    {
      houseCusps := [];
      var i := 0;
      while i < 12
        invariant 0 <= i <= 12
        invariant houseCusps == CuspsFrom(asc)[..i]
        invariant chartData == old(chartData) && aspects == old(aspects)
      {
        houseCusps := houseCusps + [Cusp(i + 1, Rem360(asc + 30.0 * i as real))];
        i := i + 1;
      }
    }

    /** The IC opposite MC, when MC is there and IC is not, then the DSC opposite the
        Ascendant, when DSC is absent. */
    method PushAxisPoints(asc: real)
      requires NonNegative(chartData) && asc >= 0.0
      modifies this
      ensures chartData == WithAxes(old(chartData), asc)
      ensures houseCusps == old(houseCusps) && aspects == old(aspects)
    {
      var mc := FindPlanet(chartData, "MC");
      if mc.Some? {
        if FindPlanet(chartData, "IC").None? {
          chartData := chartData + [OppositePoint("IC", chartData[mc.value].angle)];
        }
      }
      if FindPlanet(chartData, "DSC").None? {
        chartData := chartData + [OppositePoint("DSC", asc)];
      }
    }

    /** `p.house = ...` on every entry, in place. */
    method AssignHousesInPlace(asc: real)
      modifies this
      ensures chartData == AssignHouses(old(chartData), asc)
      ensures houseCusps == old(houseCusps) && aspects == old(aspects)
    {
      ghost var target := AssignHouses(chartData, asc);
      var k := 0;
      while k < |chartData|
        invariant 0 <= k <= |chartData| == |old(chartData)| == |target|
        invariant forall m :: 0 <= m < k ==> chartData[m] == target[m]
        invariant forall m :: k <= m < |chartData| ==> chartData[m] == old(chartData)[m]
        invariant houseCusps == old(houseCusps) && aspects == old(aspects)
      {
        chartData := chartData[k := chartData[k].(house := Some(HouseOf(chartData[k].angle, asc)))];
        k := k + 1;
      }
    }

    /** `calculateAspects`: every pair `i < j` of `chartData`, in order. */
    method CalculateAspects()
      modifies this
      ensures aspects == AspectsOf(chartData)
      ensures chartData == old(chartData) && houseCusps == old(houseCusps)
    {
      aspects := [];
      var i := 0;
      while i < |chartData|
        invariant 0 <= i <= |chartData|
        invariant aspects == AspectsBefore(AspectDefs, chartData, i)
        invariant chartData == old(chartData) && houseCusps == old(houseCusps)
      {
        ScanRow(i);
        i := i + 1;
        AspectsBeforeStep(AspectDefs, chartData, i, aspects);
      }
    }

    /** The inner loop of `calculateAspects` for `planet1 = chartData[i]`. */
    method ScanRow(i: nat)
      requires i < |chartData|
      modifies this
      ensures chartData == old(chartData) && houseCusps == old(houseCusps)
      ensures aspects == old(aspects) + RowAspects(AspectDefs, chartData, i, |chartData|)
    {
      var j := i + 1;
      while j < |chartData|
        invariant i + 1 <= j <= |chartData|
        invariant aspects == old(aspects) + RowAspects(AspectDefs, chartData, i, j)
        invariant chartData == old(chartData) && houseCusps == old(houseCusps)
      {
        ScanPair(i, j);
        j := j + 1;
      }
    }

    /** The body of the inner loop: skip unless both are core bodies, then push an aspect
        for the first table entry whose orb admits the separation. */
    method ScanPair(i: nat, j: nat)
      requires i < j < |chartData|
      modifies this
      ensures chartData == old(chartData) && houseCusps == old(houseCusps)
      ensures aspects == old(aspects) + OptionList(PairAspect(AspectDefs, chartData, i, j))
    {
      var planet1 := chartData[i];
      var planet2 := chartData[j];
      if planet1.planet !in CoreAspectBodies || planet2.planet !in CoreAspectBodies {
        return;
      }
      var angleDiff := Abs(planet1.angle - planet2.angle);
      if angleDiff > 180.0 {
        angleDiff := 360.0 - angleDiff;
      }
      assert angleDiff == Separation(planet1.angle, planet2.angle);
      var k := 0;
      while k < |AspectDefs|
        invariant 0 <= k <= |AspectDefs|
        invariant forall m :: 0 <= m < k ==> !Matches(AspectDefs[m], angleDiff)
        invariant aspects == old(aspects)
      {
        var def := AspectDefs[k];
        if Abs(angleDiff - def.angle) <= def.orb {
          aspects := aspects + [Aspect(i, j, def.name, angleDiff, Abs(angleDiff - def.angle),
                                       def.color, def.weight, def.style)];
          PairAspectFound(AspectDefs, chartData, i, j, k);
          return;
        }
        k := k + 1;
      }
      PairAspectNotFound(AspectDefs, chartData, i, j);
    }

    /** The layout part of `drawPlanets`: the cluster fan-out, written back through
        `chartData.find` by name. */
    method DrawPlanets(showExtended: bool)
      modifies this
      ensures chartData == LaidOut(old(chartData), showExtended)
      ensures houseCusps == old(houseCusps) && aspects == old(aspects)
    {
      var planetsToDraw := DrawList(chartData, showExtended);
      var clusters := FindClusters(planetsToDraw, AngleOf);
      var c := 0;
      while c < |clusters|
        invariant 0 <= c <= |clusters|
        invariant chartData == ApplyWrites(old(chartData), FanWrites(clusters[..c]))
        invariant houseCusps == old(houseCusps) && aspects == old(aspects)
      {
        SpreadCluster(clusters[c]);
        c := c + 1;
        FanWritesStep(old(chartData), clusters, c, chartData);
      }
      assert clusters[..|clusters|] == clusters;
    }

    /** The `clusters.forEach` callback: a cluster of more than one body is fanned out
        9 degrees apart around its mean degree. */
    method SpreadCluster(cluster: seq<Position>)
      modifies this
      ensures chartData == ApplyWrites(old(chartData), ClusterWrites(cluster))
      ensures houseCusps == old(houseCusps) && aspects == old(aspects)
    {
      var clusterSize := |cluster|;
      if clusterSize > 1 {
        var totalArc := (clusterSize - 1) as real * 9.0;
        var avgAngle := AngleSum(cluster) / clusterSize as real;
        var startAngle := avgAngle - totalArc / 2.0;
        ghost var ws := ClusterWrites(cluster);
        var i := 0;
        while i < clusterSize
          invariant 0 <= i <= clusterSize
          invariant chartData == ApplyWrites(old(chartData), ws[..i])
          invariant houseCusps == old(houseCusps) && aspects == old(aspects)
        {
          var p := cluster[i];
          var v := startAngle + i as real * (totalArc / (clusterSize - 1) as real);
          FanValue(clusterSize, avgAngle, i, totalArc, startAngle, v);
          ClusterWriteStep(old(chartData), cluster, i, chartData, v);
          var originalPlanet := FindPlanet(chartData, p.planet);
          if originalPlanet.Some? {
            var k := originalPlanet.value;
            chartData := chartData[k := chartData[k].(visualDegree := Some(v))];
          }
          i := i + 1;
        }
        assert ws[..clusterSize] == ws;
      }
    }
  }
}
