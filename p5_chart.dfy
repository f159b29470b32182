/** The chart pipeline of the p5 (canvas) renderer: the built-in position text parsed with no
    validation, whole-sign cusps appended to `houseCusps` without clearing it, the axis points
    pushed as bare name/degree records, the first-match scan of the 11-entry aspect table over
    the core bodies, the glyph layout written into the bodies themselves, and the hover test. */
module P5Chart {
  import opened Wrappers
  import opened JsNumber
  import opened JsString
  import Zodiac
  import opened ChartCommon

  /** An element of `chartData`. A parsed line is a `Body`; `DSC` and `IC`, pushed after the
      cusps, are records with only a name and a degree, and so no visual degree. */
  datatype Entry =
    | Body(name: string, sign: string, degree: int, minute: int, absoluteDegree: real,
           isRetrograde: bool, visualDegree: real)
    | Axis(name: string, absoluteDegree: real)

  /** An element of `aspects`: the two bodies, as their indices into `chartData`, the table
      key, and the table entry spread into the record, so `angle` and `orb` are the entry's
      own values rather than the pair's separation and deviation. */
  datatype Aspect = Aspect(p1: nat, p2: nat, aspectType: string, angle: real, orb: real,
                           color: string, weight: real, style: string)

  /** `aspectDefs`, in key order, the order `for ... in` visits it. */
  const AspectDefs: seq<AspectDef> := [
    AspectDef("Conjunction", 0.0, 8.0, "#228B22", 2.5, "solid"),
    AspectDef("Opposition", 180.0, 8.0, "#FF0000", 2.5, "solid"),
    AspectDef("Square", 90.0, 8.0, "#FF0000", 2.5, "solid"),
    AspectDef("Trine", 120.0, 8.0, "#0000FF", 2.0, "solid"),
    AspectDef("Sextile", 60.0, 6.0, "#0000FF", 2.0, "dotted"),
    AspectDef("Quincunx", 150.0, 3.0, "#B8860B", 1.5, "dashed"),
    AspectDef("Semi-sextile", 30.0, 2.0, "#888888", 1.0, "dotted"),
    AspectDef("Semi-square", 45.0, 2.0, "#888888", 1.0, "dotted"),
    AspectDef("Sesquiquadrate", 135.0, 2.0, "#888888", 1.0, "dotted"),
    AspectDef("Quintile", 72.0, 1.5, "#8A2BE2", 1.0, "dotted"),
    AspectDef("Bi-quintile", 144.0, 1.5, "#8A2BE2", 1.0, "dotted")
  ]

  /** No two of the eleven orbs overlap, so the scan's order never decides the aspect. */
  lemma AspectDefsDisjoint()
    ensures |AspectDefs| == 11
    ensures OrbsDisjoint(AspectDefs)
  {
    // Each entry's interval `[angle - orb, angle + orb]`, entry by entry.
    var lo := [-8.0, 172.0, 82.0, 112.0, 54.0, 147.0, 28.0, 43.0, 133.0, 70.5, 142.5];
    var hi := [8.0, 188.0, 98.0, 128.0, 66.0, 153.0, 32.0, 47.0, 137.0, 73.5, 145.5];
    assert forall k :: 0 <= k < 11 ==>
      AspectDefs[k].angle - AspectDefs[k].orb == lo[k] && AspectDefs[k].angle + AspectDefs[k].orb == hi[k];
    assert forall i, j :: 0 <= i < j < 11 ==> hi[i] < lo[j] || hi[j] < lo[i];
  }

  /** `createCanvas(800, 800)`: the pointer is taken relative to the centre. */
  const CanvasSize: real := 800.0
  const ZodiacInnerRadius: real := 300.0
  const PlanetRingRadius: real := 270.0
  /** The hover distance, in pixels. */
  const HoverDistance: real := 15.0

  // ---------------------------------------------------------------------------------------
  // Parsing

  /** `'’'`, the typographic apostrophe that `replace` removes from the degree field. */
  const RightQuote: char := '\U{2019}'

  /** `parseInt(deg)` and `parseInt(min)` are numbers: the third field, its first `’` removed,
      has a `°`, and `parseInt` reads digits on both sides of the first one. */
  predicate NumericToken(token: string)
  {
    var pieces := Split(RemoveFirst(token, RightQuote), '°');
    |pieces| >= 2 && ParseInt(pieces[0]).Some? && ParseInt(pieces[1]).Some?
  }

  /** A line whose third field, where it has one, is numeric. */
  predicate NumericLine(line: string)
  {
    var parts := Split(line, ',');
    |parts| >= 3 ==> NumericToken(parts[2])
  }

  predicate NumericText(text: string)
  {
    forall k :: 0 <= k < |Split(text, '\n')| ==> NumericLine(Split(text, '\n')[k])
  }

  /** The `map` callback on the fields of a line: nothing is trimmed or checked, an unknown
      sign gives `indexOf` -1, and the visual degree starts at 0. */
  function ParseEntry(parts: seq<string>): (e: Entry)
    requires |parts| >= 3 && NumericToken(parts[2])
    ensures e.Body?
  {
    var pieces := Split(RemoveFirst(parts[2], RightQuote), '°');
    var deg := ParseInt(pieces[0]).value;
    var min := ParseInt(pieces[1]).value;
    var signIndex := Zodiac.IndexOf(parts[1]);
    Body(parts[0], parts[1], deg, min, (signIndex * 30) as real + deg as real + min as real / 60.0,
         |parts| > 3 && parts[3] == "R", 0.0)
  }

  /** What the pipeline makes of one line: blank lines are filtered out, a line of fewer than
      three fields makes the `map` throw a TypeError (`parts[2]` is undefined), and any other
      line becomes a body. */
  datatype LineOutcome = Blank | Throws | Kept(e: Entry)

  function ParseLine(line: string): (r: LineOutcome)
    requires NumericLine(line)
    ensures r.Kept? ==> r.e.Body? && r.e.visualDegree == 0.0
  {
    if Trim(line) == "" then Blank
    else
      var parts := Split(line, ',');
      if |parts| < 3 then Throws else Kept(ParseEntry(parts))
  }

  /** The pipeline over the per-line outcomes: `None` when some line throws, otherwise the
      bodies of the non-blank lines, in order. */
  function Collect(outs: seq<LineOutcome>): Option<seq<Entry>>
  {
    if outs == [] then Some([])
    else
      var rest := Collect(outs[1..]);
      match outs[0]
      case Blank => rest
      case Throws => None
      case Kept(e) => if rest.None? then None else Some([e] + rest.value)
  }

  /** The outcome of every line. */
  function Outcomes(lines: seq<string>): (r: seq<LineOutcome>)
    requires forall k :: 0 <= k < |lines| ==> NumericLine(lines[k])
    ensures |r| == |lines| && forall k :: 0 <= k < |lines| ==> r[k] == ParseLine(lines[k])
  {
    seq(|lines|, k requires 0 <= k < |lines| => ParseLine(lines[k]))
  }

  /** `data.split('\n').filter(line => line.trim() !== '').map(...)` */
  function ParseText(text: string): Option<seq<Entry>>
    requires NumericText(text)
  {
    Collect(Outcomes(Split(text, '\n')))
  }

  /** The pipeline throws exactly when some line throws; otherwise it holds exactly the
      entries of the kept lines. */
  lemma {:induction false} CollectShape(outs: seq<LineOutcome>)
    ensures Collect(outs).None? <==> exists k :: 0 <= k < |outs| && outs[k].Throws?
    ensures Collect(outs).Some? ==>
      forall e :: e in Collect(outs).value <==> exists k :: 0 <= k < |outs| && outs[k] == Kept(e)
  {
    if outs != [] {
      var tail := outs[1..];
      CollectShape(tail);
      assert forall k :: 0 <= k < |tail| ==> tail[k] == outs[k + 1];
      if exists k :: 0 <= k < |outs| && outs[k].Throws? {
        var k :| 0 <= k < |outs| && outs[k].Throws?;
        if k > 0 { assert tail[k - 1].Throws?; }
      }
      if Collect(outs).Some? {
        forall e ensures e in Collect(outs).value <==> exists k :: 0 <= k < |outs| && outs[k] == Kept(e) {
          if exists k :: 0 <= k < |outs| && outs[k] == Kept(e) {
            var k :| 0 <= k < |outs| && outs[k] == Kept(e);
            if k > 0 { assert tail[k - 1] == Kept(e); }
          }
        }
      }
    }
  }

  /** The entries of the kept lines, in line order: the blank and the throwing lines add
      nothing. */
  function KeptOf(outs: seq<LineOutcome>): seq<Entry>
  {
    if outs == [] then []
    else (if outs[0].Kept? then [outs[0].e] else []) + KeptOf(outs[1..])
  }

  /** `KeptOf` is the order-keeping filter: it distributes over concatenation, a kept line
      gives its one entry and any other line none. */
  lemma {:induction false} KeptOfFilter(a: seq<LineOutcome>, b: seq<LineOutcome>)
    ensures KeptOf(a + b) == KeptOf(a) + KeptOf(b)
    ensures |a| == 1 ==> KeptOf(a) == if a[0].Kept? then [a[0].e] else []
    decreases |a|
  {
    if a == [] {
      assert a + b == b;
    } else {
      var ab := a + b;
      var head: seq<Entry> := if a[0].Kept? then [a[0].e] else [];
      assert ab[0] == a[0] && ab[1..] == a[1..] + b;
      KeptOfFilter(a[1..], b);
      assert KeptOf(ab) == head + KeptOf(a[1..] + b);
      assert KeptOf(a) == head + KeptOf(a[1..]);
      AppendAssoc(head, KeptOf(a[1..]), KeptOf(b));
    }
  }

  /** A parse that completes returns the entries of the kept lines, in line order, each as
      often as its line occurs. */
  lemma {:induction false} CollectKept(outs: seq<LineOutcome>)
    ensures Collect(outs).Some? ==> Collect(outs).value == KeptOf(outs)
  {
    if outs != [] {
      CollectKept(outs[1..]);
    }
  }

  /** When every line is kept, the parse returns their entries in exactly the order of the
      lines. */
  lemma {:induction false} CollectAllKept(outs: seq<LineOutcome>, es: seq<Entry>)
    requires |outs| == |es| && forall k :: 0 <= k < |outs| ==> outs[k] == Kept(es[k])
    ensures Collect(outs) == Some(es)
  {
    if outs != [] {
      assert forall k :: 0 <= k < |outs| - 1 ==> outs[1..][k] == outs[k + 1] && es[1..][k] == es[k + 1];
      CollectAllKept(outs[1..], es[1..]);
      assert [es[0]] + es[1..] == es;
    }
  }

  /** The parse throws exactly when some line throws, that is, when some non-blank line has
      fewer than three fields; a completed parse holds the bodies of the other non-blank
      lines in line order, each with visual degree 0. */
  lemma ParseLinesShape(lines: seq<string>)
    requires forall k :: 0 <= k < |lines| ==> NumericLine(lines[k])
    ensures Collect(Outcomes(lines)).None? <==> exists k :: 0 <= k < |lines| && ParseLine(lines[k]).Throws?
    ensures Collect(Outcomes(lines)).Some? ==> Collect(Outcomes(lines)).value == KeptOf(Outcomes(lines))
    ensures Collect(Outcomes(lines)).Some? ==> forall e :: e in Collect(Outcomes(lines)).value <==>
      exists k :: 0 <= k < |lines| && ParseLine(lines[k]) == Kept(e)
    ensures Collect(Outcomes(lines)).Some? ==> forall e :: e in Collect(Outcomes(lines)).value ==>
      e.Body? && e.visualDegree == 0.0
  {
    CollectShape(Outcomes(lines));
    CollectKept(Outcomes(lines));
  }

  /** When the pipeline of `parseDataAndGenerateHouses` completes, its list holds the entries
      of the kept lines of the text, in line order. */
  lemma ParseTextOrder(text: string)
    requires NumericText(text)
    ensures ParseText(text).Some? ==> ParseText(text).value == KeptOf(Outcomes(Split(text, '\n')))
  {
    var lines := Split(text, '\n');
    ParseLinesShape(lines);
    assert ParseText(text) == Collect(Outcomes(lines));
  }

  /** The token `D°MM'` of two digit runs holds no comma and no `’`, and splits at `°` into
      the degree run and the minute run followed by the apostrophe. */
  lemma TokenSplits(dd: string, mm: string)
    requires AllDigits(dd) && AllDigits(mm)
    ensures ',' !in TokenOf(dd, mm) && RightQuote !in TokenOf(dd, mm)
    ensures Split(TokenOf(dd, mm), '°') == [dd, mm + "'"]
  {
    forall i | 0 <= i < |dd| ensures dd[i] != ',' && dd[i] != RightQuote && dd[i] != '°' { assert IsDigit(dd[i]); }
    forall i | 0 <= i < |mm| ensures mm[i] != ',' && mm[i] != RightQuote && mm[i] != '°' { assert IsDigit(mm[i]); }
    var pieces := [dd, mm + "'"];
    assert Join(pieces, '°') == TokenOf(dd, mm);
    SplitJoin(pieces, '°');
  }

  /** `parseInt` reads the two runs back from the two pieces. */
  lemma TokenNumbers(dd: string, mm: string)
    requires |dd| >= 1 && AllDigits(dd) && |mm| >= 1 && AllDigits(mm)
    ensures ParseInt(dd) == Some(DigitsValue(dd)) && ParseInt(mm + "'") == Some(DigitsValue(mm))
  {
    assert dd + "" == dd;
    ParseIntOfDigits(dd, "");
    ParseIntOfDigits(mm, "'");
  }

  /** Both pieces of the token are read as the runs they came from. */
  lemma TokenPieces(dd: string, mm: string)
    requires |dd| >= 1 && AllDigits(dd) && |mm| >= 1 && AllDigits(mm)
    ensures ',' !in TokenOf(dd, mm)
    ensures Split(RemoveFirst(TokenOf(dd, mm), RightQuote), '°') == [dd, mm + "'"]
    ensures ParseInt(dd) == Some(DigitsValue(dd)) && ParseInt(mm + "'") == Some(DigitsValue(mm))
  {
    TokenSplits(dd, mm);
    TokenNumbers(dd, mm);
  }

  /** The fields of a line with such a token parse to the body they describe. */
  lemma ParseEntryFields(parts: seq<string>, name: string, sign: string, dd: string, mm: string, retro: bool)
    requires |parts| >= 3 && parts[0] == name && parts[1] == sign && parts[2] == TokenOf(dd, mm)
    requires retro <==> |parts| > 3 && parts[3] == "R"
    requires |dd| >= 1 && AllDigits(dd) && |mm| >= 1 && AllDigits(mm)
    ensures NumericToken(parts[2])
    ensures ParseEntry(parts)
         == Body(name, sign, DigitsValue(dd), DigitsValue(mm),
                 (Zodiac.IndexOf(sign) * 30) as real + DigitsValue(dd) as real + DigitsValue(mm) as real / 60.0,
                 retro, 0.0)
  {
    TokenPieces(dd, mm);
  }

  /** A line that holds a comma is not blank. */
  lemma CommaNotBlank(line: string, k: nat)
    requires k < |line| && line[k] == ','
    ensures Trim(line) != ""
  {
    TrimEmptyIffAllWhite(line);
  }

  /** The fields a line of a body splits into. */
  lemma LineFields(name: string, sign: string, token: string, retro: bool)
    requires ',' !in name && ',' !in sign && ',' !in token
    ensures var parts := Split(LineOf(name, sign, token, retro), ',');
      && |parts| >= 3 && parts[0] == name && parts[1] == sign && parts[2] == token
      && (retro <==> |parts| > 3 && parts[3] == "R")
  {
    LineSplits(name, sign, token, retro);
  }

  /** A non-blank line whose fields are those of a body is parsed as that body. */
  lemma ParseLineFields(line: string, name: string, sign: string, dd: string, mm: string, retro: bool)
    requires Trim(line) != ""
    requires var parts := Split(line, ',');
      && |parts| >= 3 && parts[0] == name && parts[1] == sign && parts[2] == TokenOf(dd, mm)
      && (retro <==> |parts| > 3 && parts[3] == "R")
    requires |dd| >= 1 && AllDigits(dd) && |mm| >= 1 && AllDigits(mm)
    ensures NumericLine(line)
    ensures ParseLine(line)
         == Kept(Body(name, sign, DigitsValue(dd), DigitsValue(mm),
                      (Zodiac.IndexOf(sign) * 30) as real + DigitsValue(dd) as real + DigitsValue(mm) as real / 60.0,
                      retro, 0.0))
  {
    ParseEntryFields(Split(line, ','), name, sign, dd, mm, retro);
  }

  /** The line `name,sign,D°MM'`, with `,R` when retrograde, is read back field for field,
      name and sign untrimmed. */
  lemma ParseLineOf(name: string, sign: string, dd: string, mm: string, retro: bool)
    requires ',' !in name && ',' !in sign
    requires |dd| >= 1 && AllDigits(dd) && |mm| >= 1 && AllDigits(mm)
    ensures NumericLine(LineOf(name, sign, TokenOf(dd, mm), retro))
    ensures ParseLine(LineOf(name, sign, TokenOf(dd, mm), retro))
         == Kept(Body(name, sign, DigitsValue(dd), DigitsValue(mm),
                      (Zodiac.IndexOf(sign) * 30) as real + DigitsValue(dd) as real + DigitsValue(mm) as real / 60.0,
                      retro, 0.0))
  {
    var line := LineOf(name, sign, TokenOf(dd, mm), retro);
    TokenSplits(dd, mm);
    LineFields(name, sign, TokenOf(dd, mm), retro);
    assert line[|name|] == ',';
    CommaNotBlank(line, |name|);
    ParseLineFields(line, name, sign, dd, mm, retro);
  }

  /** The sign is not checked: a name outside the twelve has index -1 and puts the body 30
      degrees before Aries. */
  lemma ParseUnknownSign(name: string, sign: string, dd: string, mm: string, retro: bool)
    requires ',' !in name && ',' !in sign && sign !in Zodiac.SignNames
    requires |dd| >= 1 && AllDigits(dd) && |mm| >= 1 && AllDigits(mm)
    ensures NumericLine(LineOf(name, sign, TokenOf(dd, mm), retro))
    ensures ParseLine(LineOf(name, sign, TokenOf(dd, mm), retro)).Kept?
    ensures ParseLine(LineOf(name, sign, TokenOf(dd, mm), retro)).e.absoluteDegree
        == -30.0 + DigitsValue(dd) as real + DigitsValue(mm) as real / 60.0
  {
    ParseLineOf(name, sign, dd, mm, retro);
  }

  // ---------------------------------------------------------------------------------------
  // Houses and axis points

  /** `chartData.find(p => p.name === name)`, as the index of the element found. */
  function FindEntry(ps: seq<Entry>, name: string): (r: Option<nat>)
    ensures r.Some? ==> r.value < |ps| && ps[r.value].name == name
    ensures r.Some? ==> forall k :: 0 <= k < r.value ==> ps[k].name != name
    ensures r.None? <==> forall k :: 0 <= k < |ps| ==> ps[k].name != name
  {
    FindEntryFrom(ps, name, 0)
  }

  function FindEntryFrom(ps: seq<Entry>, name: string, i: nat): (r: Option<nat>)
    requires i <= |ps|
    ensures r.Some? ==> i <= r.value < |ps| && ps[r.value].name == name
    ensures r.Some? ==> forall k :: i <= k < r.value ==> ps[k].name != name
    ensures r.None? <==> forall k :: i <= k < |ps| ==> ps[k].name != name
    decreases |ps| - i
  {
    if i == |ps| then None
    else if ps[i].name == name then Some(i)
    else FindEntryFrom(ps, name, i + 1)
  }

  /** How `parseDataAndGenerateHouses` ends. */
  datatype ParseOutcome =
    | ThrewTypeError   // a non-blank line has fewer than three fields; nothing is replaced
    | NoAscendant      // `asc.absoluteDegree` throws: `chartData` is replaced, nothing else
    | NoMidheaven      // `mc.absoluteDegree` throws: the twelve cusps are already appended
    | Completed        // cusps appended, `DSC` and `IC` pushed

  /** The state the parse leaves once the lines are read into `ps`, from the cusps `cusps0`:
      without an Ascendant only `chartData` is replaced; without a Midheaven the twelve cusps
      are appended as well; otherwise `DSC` and `IC` are pushed opposite the Ascendant and
      the Midheaven. */
  predicate HousesFrom(ps: seq<Entry>, cusps0: seq<Cusp>, outcome: ParseOutcome, data: seq<Entry>, cusps: seq<Cusp>)
  {
    match FindEntry(ps, "ASC")
    case None => outcome == NoAscendant && data == ps && cusps == cusps0
    case Some(a) =>
      && cusps == cusps0 + CuspsFrom(ps[a].absoluteDegree)
      && match FindEntry(ps, "MC")
         case None => outcome == NoMidheaven && data == ps
         case Some(m) =>
           && outcome == Completed
           && data == ps + [Axis("DSC", Rem360(ps[a].absoluteDegree + 180.0)),
                            Axis("IC", Rem360(ps[m].absoluteDegree + 180.0))]
  }

  /** Every point pushed by the parse is one of the axis points. */
  predicate AxisNamed(ps: seq<Entry>)
  {
    forall k :: 0 <= k < |ps| && ps[k].Axis? ==> ps[k].name in AxisNames
  }

  // ---------------------------------------------------------------------------------------
  // Selections of `chartData`

  /** The filters the renderer applies to `chartData`. */
  datatype Selection =
    | Active(showExtended: bool)  // `handleInteractivity`: names passing `planetSymbols[p.name]`
    | Drawn(showExtended: bool)   // `drawPlanets`: the same, axis points removed
    | Core                        // `calculateAspects`: names in `coreAspectBodies`

  predicate Keeps(sel: Selection, e: Entry)
  {
    match sel
    case Active(ext) => HasSymbol(e.name) && (ext || e.name !in ExtendedNames)
    case Drawn(ext) => HasSymbol(e.name) && e.name !in AxisNames && (ext || e.name !in ExtendedNames)
    case Core => e.name in CoreAspectBodies
  }

  /** A name every object inherits, such as `toString`, passes the `planetSymbols` test, so an
      entry of that name is drawn and can be hovered like a planet. */
  lemma KeepsInherited(e: Entry, showExtended: bool)
    requires e.name in PrototypeNames
    ensures Keeps(Active(showExtended), e) && Keeps(Drawn(showExtended), e)
  {
    assert e.name !in AxisNames && e.name !in ExtendedNames;
  }

  /** A reference to the element `chartData[index]`, with the degree it is sorted by: the
      source holds the objects themselves, which `drawPlanets` then writes through. */
  datatype Ref = Ref(index: nat, degree: real)

  function RefDegree(r: Ref): real
  {
    r.degree
  }

  /** `chartData.filter(...)` over the first `n` elements, as references, in order. */
  function Select(ps: seq<Entry>, sel: Selection, n: nat): (r: seq<Ref>)
    requires n <= |ps|
    ensures |r| <= n
  {
    if n == 0 then []
    else Select(ps, sel, n - 1) + (if Keeps(sel, ps[n - 1]) then [Ref(n - 1, ps[n - 1].absoluteDegree)] else [])
  }

  /** Each reference points at a kept element and carries its degree; indices increase. */
  predicate SelectedFrom(ps: seq<Entry>, sel: Selection, r: seq<Ref>)
  {
    && (forall x :: 0 <= x < |r| ==>
          r[x].index < |ps| && Keeps(sel, ps[r[x].index]) && r[x].degree == ps[r[x].index].absoluteDegree)
    && (forall x, y :: 0 <= x < y < |r| ==> r[x].index < r[y].index)
  }

  lemma SelectedSnoc(ps: seq<Entry>, sel: Selection, front: seq<Ref>, extra: seq<Ref>, r: seq<Ref>, m: nat)
    requires m < |ps| && SelectedFrom(ps, sel, front) && forall x :: 0 <= x < |front| ==> front[x].index < m
    requires extra == [] || (Keeps(sel, ps[m]) && extra == [Ref(m, ps[m].absoluteDegree)])
    requires r == front + extra
    ensures SelectedFrom(ps, sel, r) && forall x :: 0 <= x < |r| ==> r[x].index <= m
  {
    forall x | 0 <= x < |r| ensures r[x].index <= m {
      if x < |front| { assert r[x] == front[x]; }
    }
    forall x, y | 0 <= x < y < |r| ensures r[x].index < r[y].index {
      assert r[x] == front[x];
      if y < |front| { assert r[y] == front[y]; }
    }
    forall x | 0 <= x < |r|
      ensures r[x].index < |ps| && Keeps(sel, ps[r[x].index]) && r[x].degree == ps[r[x].index].absoluteDegree
    {
      if x < |front| { assert r[x] == front[x]; }
    }
  }

  /** The filter keeps only elements it should, with their degrees, in `chartData` order. */
  lemma {:induction false} SelectSound(ps: seq<Entry>, sel: Selection, n: nat)
    requires n <= |ps|
    ensures SelectedFrom(ps, sel, Select(ps, sel, n))
    ensures forall x :: 0 <= x < |Select(ps, sel, n)| ==> Select(ps, sel, n)[x].index < n
  {
    if n > 0 {
      SelectSound(ps, sel, n - 1);
      var extra := if Keeps(sel, ps[n - 1]) then [Ref(n - 1, ps[n - 1].absoluteDegree)] else [];
      SelectedSnoc(ps, sel, Select(ps, sel, n - 1), extra, Select(ps, sel, n), n - 1);
    }
  }

  /** The filter keeps every element it should. */
  lemma {:induction false} SelectComplete(ps: seq<Entry>, sel: Selection, n: nat)
    requires n <= |ps|
    ensures forall k :: 0 <= k < n && Keeps(sel, ps[k]) ==> Ref(k, ps[k].absoluteDegree) in Select(ps, sel, n)
  {
    if n > 0 {
      SelectComplete(ps, sel, n - 1);
    }
  }

  /** The filter keeps exactly the elements it should, in order. */
  lemma SelectShape(ps: seq<Entry>, sel: Selection, n: nat)
    requires n <= |ps|
    ensures SelectedFrom(ps, sel, Select(ps, sel, n))
    ensures forall x :: 0 <= x < |Select(ps, sel, n)| ==> Select(ps, sel, n)[x].index < n
    ensures forall k :: 0 <= k < n && Keeps(sel, ps[k]) ==> Ref(k, ps[k].absoluteDegree) in Select(ps, sel, n)
  {
    SelectSound(ps, sel, n);
    SelectComplete(ps, sel, n);
  }

  // ---------------------------------------------------------------------------------------
  // Aspects

  /** The aspect of the core bodies at positions `i < j` of the filtered list: the first
      entry whose orb admits their separation, spread into the record. */
  function PairAspect(defs: seq<AspectDef>, planets: seq<Ref>, i: nat, j: nat): (r: Option<Aspect>)
    requires i < j < |planets|
    ensures r.Some? ==> r.value.p1 == planets[i].index && r.value.p2 == planets[j].index
  {
    match FirstMatch(defs, Separation(planets[i].degree, planets[j].degree))
    case None => None
    case Some(k) =>
      var def := defs[k];
      Some(Aspect(planets[i].index, planets[j].index, def.name, def.angle, def.orb, def.color, def.weight, def.style))
  }

  /** A pair has an aspect exactly when some entry admits its separation; the record is then
      the first such entry, whose orb the separation lies within. */
  lemma PairAspectShape(defs: seq<AspectDef>, planets: seq<Ref>, i: nat, j: nat)
    requires i < j < |planets|
    ensures PairAspect(defs, planets, i, j).Some? <==>
      exists k :: 0 <= k < |defs| && Matches(defs[k], Separation(planets[i].degree, planets[j].degree))
    ensures PairAspect(defs, planets, i, j).Some? ==>
      var k := FirstMatch(defs, Separation(planets[i].degree, planets[j].degree)).value;
      var def := defs[k];
      && Matches(def, Separation(planets[i].degree, planets[j].degree))
      && (forall m :: 0 <= m < k ==> !Matches(defs[m], Separation(planets[i].degree, planets[j].degree)))
      && PairAspect(defs, planets, i, j).value ==
           Aspect(planets[i].index, planets[j].index, def.name, def.angle, def.orb, def.color, def.weight, def.style)
  {
    FirstMatchSpec(defs, Separation(planets[i].degree, planets[j].degree));
  }

  /** Since the orbs of the table are disjoint, whichever entry admits a pair's separation is
      the aspect recorded for it: first-match equals any-match. */
  lemma PairAspectAnyMatch(planets: seq<Ref>, i: nat, j: nat, k: nat)
    requires i < j < |planets|
    requires k < |AspectDefs| && Matches(AspectDefs[k], Separation(planets[i].degree, planets[j].degree))
    ensures PairAspect(AspectDefs, planets, i, j).Some?
    ensures PairAspect(AspectDefs, planets, i, j).value.aspectType == AspectDefs[k].name
  {
    AspectDefsDisjoint();
    FirstMatchIsOnlyMatch(AspectDefs, Separation(planets[i].degree, planets[j].degree), k);
  }

  /** The scan that stops at entry `k` records that entry. */
  lemma PairAspectFound(defs: seq<AspectDef>, planets: seq<Ref>, i: nat, j: nat, k: nat)
    requires i < j < |planets|
    requires k < |defs| && Matches(defs[k], Separation(planets[i].degree, planets[j].degree))
    requires forall m :: 0 <= m < k ==> !Matches(defs[m], Separation(planets[i].degree, planets[j].degree))
    ensures var def := defs[k];
      PairAspect(defs, planets, i, j)
        == Some(Aspect(planets[i].index, planets[j].index, def.name, def.angle, def.orb, def.color, def.weight, def.style))
  {
    FirstMatchSpec(defs, Separation(planets[i].degree, planets[j].degree));
  }

  /** The scan that runs off the table records nothing. */
  lemma PairAspectNotFound(defs: seq<AspectDef>, planets: seq<Ref>, i: nat, j: nat)
    requires i < j < |planets|
    requires forall m :: 0 <= m < |defs| ==> !Matches(defs[m], Separation(planets[i].degree, planets[j].degree))
    ensures PairAspect(defs, planets, i, j) == None
  {
    FirstMatchSpec(defs, Separation(planets[i].degree, planets[j].degree));
  }

  function OptionList(a: Option<Aspect>): seq<Aspect>
  {
    if a.Some? then [a.value] else []
  }

  /** The aspects the inner loop of row `i` has pushed once `j` is reached. */
  function RowAspects(defs: seq<AspectDef>, planets: seq<Ref>, i: nat, j: nat): seq<Aspect>
    requires i < j <= |planets|
    decreases j
  {
    if j == i + 1 then [] else RowAspects(defs, planets, i, j - 1) + OptionList(PairAspect(defs, planets, i, j - 1))
  }

  /** The aspects the outer loop has pushed once `i` is reached. */
  function AspectsBefore(defs: seq<AspectDef>, planets: seq<Ref>, i: nat): seq<Aspect>
    requires i <= |planets|
  {
    if i == 0 then [] else AspectsBefore(defs, planets, i - 1) + RowAspects(defs, planets, i - 1, |planets|)
  }

  /** `calculateAspects`' result as a function of the filtered list. */
  function AspectsOf(planets: seq<Ref>): seq<Aspect>
  {
    AspectsBefore(AspectDefs, planets, |planets|)
  }

  predicate Increasing(planets: seq<Ref>)
  {
    forall x, y :: 0 <= x < y < |planets| ==> planets[x].index < planets[y].index
  }

  /** `row` holds aspects of pairs `(a, b)` with `a < b <= top`, in increasing `b`. */
  predicate RowOrdered(row: seq<Aspect>, a: int, top: int)
  {
    && (forall x :: 0 <= x < |row| ==> row[x].p1 == a && a < row[x].p2 <= top)
    && (forall x, y :: 0 <= x < y < |row| ==> row[x].p2 < row[y].p2)
  }

  /** `a` comes before `b` in the scan order of the pairs. */
  predicate ScanBefore(a: Aspect, b: Aspect)
  {
    a.p1 < b.p1 || (a.p1 == b.p1 && a.p2 < b.p2)
  }

  /** `r` holds aspects of pairs `a < b` with `a <= top`, strictly in scan order. */
  predicate ScanOrdered(r: seq<Aspect>, top: int)
  {
    && (forall x :: 0 <= x < |r| ==> r[x].p1 <= top && r[x].p1 < r[x].p2)
    && (forall x, y :: 0 <= x < y < |r| ==> ScanBefore(r[x], r[y]))
  }

  /** `a` is the aspect of some pair of the list. */
  predicate IsPairAspect(defs: seq<AspectDef>, planets: seq<Ref>, a: Aspect)
  {
    exists i: nat, j: nat :: i < j < |planets| && PairAspect(defs, planets, i, j) == Some(a)
  }

  /** Every aspect in `r` is the aspect of some pair of the list. */
  predicate AllSound(defs: seq<AspectDef>, planets: seq<Ref>, r: seq<Aspect>)
  {
    forall x :: 0 <= x < |r| ==> IsPairAspect(defs, planets, r[x])
  }

  /** The chart index of the last row begun before row `i`. */
  function Top(planets: seq<Ref>, i: nat): int
    requires i <= |planets|
  {
    if i == 0 then -1 else planets[i - 1].index
  }

  lemma RowOrderedSnoc(prev: seq<Aspect>, extra: seq<Aspect>, r: seq<Aspect>, a: int, top: int, next: int)
    requires RowOrdered(prev, a, top) && top < next && a < next && r == prev + extra
    requires |extra| <= 1 && forall x :: 0 <= x < |extra| ==> extra[x].p1 == a && extra[x].p2 == next
    ensures RowOrdered(r, a, next)
  {
    forall x | 0 <= x < |r| ensures r[x].p1 == a && a < r[x].p2 <= next {
      if x < |prev| { assert r[x] == prev[x]; } else { assert r[x] == extra[x - |prev|]; }
    }
    forall x, y | 0 <= x < y < |r| ensures r[x].p2 < r[y].p2 {
      assert r[x] == prev[x];
      if y < |prev| { assert r[y] == prev[y]; } else { assert r[y] == extra[y - |prev|]; }
    }
  }

  lemma ScanOrderedAppendRow(prev: seq<Aspect>, row: seq<Aspect>, r: seq<Aspect>, top: int, a: int, rowTop: int)
    requires ScanOrdered(prev, top) && top < a && RowOrdered(row, a, rowTop) && r == prev + row
    ensures ScanOrdered(r, a)
  {
    forall x | 0 <= x < |r| ensures r[x].p1 <= a && r[x].p1 < r[x].p2 {
      if x < |prev| { assert r[x] == prev[x]; } else { assert r[x] == row[x - |prev|]; }
    }
    forall x, y | 0 <= x < y < |r| ensures ScanBefore(r[x], r[y]) {
      if y < |prev| {
        assert r[x] == prev[x] && r[y] == prev[y];
      } else if x < |prev| {
        assert r[x] == prev[x] && r[y] == row[y - |prev|];
      } else {
        assert r[x] == row[x - |prev|] && r[y] == row[y - |prev|];
      }
    }
  }

  lemma AllSoundAppend(defs: seq<AspectDef>, planets: seq<Ref>, a: seq<Aspect>, b: seq<Aspect>, r: seq<Aspect>)
    requires AllSound(defs, planets, a) && AllSound(defs, planets, b) && r == a + b
    ensures AllSound(defs, planets, r)
  {
    forall x | 0 <= x < |r| ensures IsPairAspect(defs, planets, r[x]) {
      if x < |a| { assert r[x] == a[x]; } else { assert r[x] == b[x - |a|]; }
    }
  }

  lemma PairSound(defs: seq<AspectDef>, planets: seq<Ref>, i: nat, j: nat, extra: seq<Aspect>)
    requires i < j < |planets| && extra == OptionList(PairAspect(defs, planets, i, j))
    ensures AllSound(defs, planets, extra)
  {
    forall x | 0 <= x < |extra| ensures IsPairAspect(defs, planets, extra[x]) {
      assert PairAspect(defs, planets, i, j) == Some(extra[x]);
    }
  }

  /** Row `i` up to `j` holds aspects of the body `planets[i]` with later bodies up to
      `planets[j - 1]`, by increasing chart index of the second body. */
  lemma {:induction false} RowAspectsOrdered(defs: seq<AspectDef>, planets: seq<Ref>, i: nat, j: nat)
    requires i < j <= |planets| && Increasing(planets)
    ensures RowOrdered(RowAspects(defs, planets, i, j), planets[i].index, planets[j - 1].index)
    decreases j
  {
    if j > i + 1 {
      RowAspectsOrdered(defs, planets, i, j - 1);
      var pair := PairAspect(defs, planets, i, j - 1);
      assert RowAspects(defs, planets, i, j) == RowAspects(defs, planets, i, j - 1) + OptionList(pair);
      if j - 1 > i + 1 {
        assert planets[j - 2].index < planets[j - 1].index;
      }
      RowOrderedSnoc(RowAspects(defs, planets, i, j - 1), OptionList(pair), RowAspects(defs, planets, i, j),
                     planets[i].index, planets[j - 2].index, planets[j - 1].index);
    }
  }

  /** Each aspect of row `i` is the aspect of a pair of the list. */
  lemma {:induction false} RowAspectsSound(defs: seq<AspectDef>, planets: seq<Ref>, i: nat, j: nat)
    requires i < j <= |planets|
    ensures AllSound(defs, planets, RowAspects(defs, planets, i, j))
    decreases j
  {
    if j > i + 1 {
      RowAspectsSound(defs, planets, i, j - 1);
      var pair := PairAspect(defs, planets, i, j - 1);
      assert RowAspects(defs, planets, i, j) == RowAspects(defs, planets, i, j - 1) + OptionList(pair);
      PairSound(defs, planets, i, j - 1, OptionList(pair));
      AllSoundAppend(defs, planets, RowAspects(defs, planets, i, j - 1), OptionList(pair), RowAspects(defs, planets, i, j));
    }
  }

  /** Row `i` holds the aspect of every pair `(i, b)`, `b < j`, that has one. */
  lemma {:induction false} RowAspectsComplete(defs: seq<AspectDef>, planets: seq<Ref>, i: nat, j: nat)
    requires i < j <= |planets|
    ensures forall b :: i < b < j && PairAspect(defs, planets, i, b).Some? ==>
      PairAspect(defs, planets, i, b).value in RowAspects(defs, planets, i, j)
    decreases j
  {
    if j > i + 1 {
      RowAspectsComplete(defs, planets, i, j - 1);
      var prev := RowAspects(defs, planets, i, j - 1);
      var extra := OptionList(PairAspect(defs, planets, i, j - 1));
      assert RowAspects(defs, planets, i, j) == prev + extra;
      forall b | i < b < j && PairAspect(defs, planets, i, b).Some? ensures PairAspect(defs, planets, i, b).value in prev + extra {
        if b < j - 1 {
          assert PairAspect(defs, planets, i, b).value in prev;
        } else {
          assert extra == [PairAspect(defs, planets, i, b).value];
        }
      }
    }
  }

  /** Once row `i` is reached the list holds aspects of bodies before `chartData` index
      `Top(planets, i)`, strictly in scan order. */
  lemma {:induction false} AspectsBeforeOrdered(defs: seq<AspectDef>, planets: seq<Ref>, i: nat)
    requires i <= |planets| && Increasing(planets)
    ensures ScanOrdered(AspectsBefore(defs, planets, i), Top(planets, i))
  {
    if i > 0 {
      AspectsBeforeOrdered(defs, planets, i - 1);
      RowAspectsOrdered(defs, planets, i - 1, |planets|);
      if i > 1 {
        assert planets[i - 2].index < planets[i - 1].index;
      }
      ScanOrderedAppendRow(AspectsBefore(defs, planets, i - 1), RowAspects(defs, planets, i - 1, |planets|), AspectsBefore(defs, planets, i),
                           Top(planets, i - 1), planets[i - 1].index, planets[|planets| - 1].index);
    }
  }

  /** Every aspect pushed is the aspect of a pair of the list. */
  lemma {:induction false} AspectsBeforeSound(defs: seq<AspectDef>, planets: seq<Ref>, i: nat)
    requires i <= |planets|
    ensures AllSound(defs, planets, AspectsBefore(defs, planets, i))
  {
    if i > 0 {
      AspectsBeforeSound(defs, planets, i - 1);
      RowAspectsSound(defs, planets, i - 1, |planets|);
      AllSoundAppend(defs, planets, AspectsBefore(defs, planets, i - 1), RowAspects(defs, planets, i - 1, |planets|), AspectsBefore(defs, planets, i));
    }
  }

  /** Once row `i` is reached, the aspect of every pair `a < b` with `a < i` that has one has
      been pushed. */
  lemma {:induction false} AspectsBeforeComplete(defs: seq<AspectDef>, planets: seq<Ref>, i: nat)
    requires i <= |planets|
    ensures forall a, b :: 0 <= a < i && a < b < |planets| && PairAspect(defs, planets, a, b).Some? ==>
      PairAspect(defs, planets, a, b).value in AspectsBefore(defs, planets, i)
  {
    if i > 0 {
      AspectsBeforeComplete(defs, planets, i - 1);
      RowAspectsComplete(defs, planets, i - 1, |planets|);
      var prev := AspectsBefore(defs, planets, i - 1);
      var row := RowAspects(defs, planets, i - 1, |planets|);
      assert AspectsBefore(defs, planets, i) == prev + row;
      forall a, b | 0 <= a < i && a < b < |planets| && PairAspect(defs, planets, a, b).Some?
        ensures PairAspect(defs, planets, a, b).value in prev + row
      {
        if a < i - 1 {
          assert PairAspect(defs, planets, a, b).value in prev;
        } else {
          assert PairAspect(defs, planets, a, b).value in row;
        }
      }
    }
  }

  /** Over the core bodies of a chart, for any aspect table (`AspectsOf` uses the renderer's):
      every aspect is the aspect of a pair, every pair that has an aspect has it recorded, and
      no pair of bodies is recorded twice, the first body always the earlier one in
      `chartData`. */
  lemma AspectsOfCore(defs: seq<AspectDef>, ps: seq<Entry>)
    ensures var planets := Select(ps, Core, |ps|);
      && AllSound(defs, planets, AspectsBefore(defs, planets, |planets|))
      && (forall a, b :: 0 <= a < b < |planets| && PairAspect(defs, planets, a, b).Some? ==>
            PairAspect(defs, planets, a, b).value in AspectsBefore(defs, planets, |planets|))
      && (forall x :: 0 <= x < |AspectsBefore(defs, planets, |planets|)| ==>
            AspectsBefore(defs, planets, |planets|)[x].p1 < AspectsBefore(defs, planets, |planets|)[x].p2 < |ps|
            && ps[AspectsBefore(defs, planets, |planets|)[x].p1].name in CoreAspectBodies
            && ps[AspectsBefore(defs, planets, |planets|)[x].p2].name in CoreAspectBodies)
      && (forall x, y :: 0 <= x < y < |AspectsBefore(defs, planets, |planets|)| ==>
            (AspectsBefore(defs, planets, |planets|)[x].p1, AspectsBefore(defs, planets, |planets|)[x].p2) != (AspectsBefore(defs, planets, |planets|)[y].p1, AspectsBefore(defs, planets, |planets|)[y].p2))
  {
    var planets := Select(ps, Core, |ps|);
    AspectsBeforeSound(defs, planets, |planets|);
    AspectsBeforeComplete(defs, planets, |planets|);
    SelectShape(ps, Core, |ps|);
    AspectsOfCoreBodies(defs, ps, planets, AspectsBefore(defs, planets, |planets|));
    AspectsOfCorePairsOnce(defs, ps, planets);
  }

  /** Each recorded pair is two core bodies of `chartData`, the earlier one first. */
  lemma AspectsOfCoreBodies(defs: seq<AspectDef>, ps: seq<Entry>, planets: seq<Ref>, r: seq<Aspect>)
    requires SelectedFrom(ps, Core, planets) && AllSound(defs, planets, r)
    ensures forall x :: 0 <= x < |r| ==>
      r[x].p1 < r[x].p2 < |ps| && ps[r[x].p1].name in CoreAspectBodies && ps[r[x].p2].name in CoreAspectBodies
  {
    forall x | 0 <= x < |r|
      ensures r[x].p1 < r[x].p2 < |ps| && ps[r[x].p1].name in CoreAspectBodies && ps[r[x].p2].name in CoreAspectBodies
    {
      PairAspectBodies(defs, ps, planets, r[x]);
    }
  }

  /** The aspect of a pair of selected core bodies names them, the earlier one first. */
  lemma PairAspectBodies(defs: seq<AspectDef>, ps: seq<Entry>, planets: seq<Ref>, a: Aspect)
    requires SelectedFrom(ps, Core, planets) && IsPairAspect(defs, planets, a)
    ensures a.p1 < a.p2 < |ps| && ps[a.p1].name in CoreAspectBodies && ps[a.p2].name in CoreAspectBodies
  {
    var i: nat, j: nat :| i < j < |planets| && PairAspect(defs, planets, i, j) == Some(a);
    assert a.p1 == planets[i].index && a.p2 == planets[j].index;
    assert Keeps(Core, ps[planets[i].index]) && Keeps(Core, ps[planets[j].index]);
  }

  /** No pair of bodies is recorded twice. */
  lemma AspectsOfCorePairsOnce(defs: seq<AspectDef>, ps: seq<Entry>, planets: seq<Ref>)
    requires planets == Select(ps, Core, |ps|)
    ensures forall x, y :: 0 <= x < y < |AspectsBefore(defs, planets, |planets|)| ==>
      (AspectsBefore(defs, planets, |planets|)[x].p1, AspectsBefore(defs, planets, |planets|)[x].p2)
        != (AspectsBefore(defs, planets, |planets|)[y].p1, AspectsBefore(defs, planets, |planets|)[y].p2)
  {
    var r := AspectsBefore(defs, planets, |planets|);
    SelectShape(ps, Core, |ps|);
    AspectsBeforeOrdered(defs, planets, |planets|);
    forall x, y | 0 <= x < y < |r| ensures (r[x].p1, r[x].p2) != (r[y].p1, r[y].p2) {
      assert ScanBefore(r[x], r[y]);
    }
  }

  // ---------------------------------------------------------------------------------------
  // Glyph layout

  /** `cluster.reduce((sum, p) => sum + p.absoluteDegree, 0)` */
  function DegreeSum(c: seq<Ref>): (r: real)
    ensures r == Sum(seq(|c|, i requires 0 <= i < |c| => c[i].degree))
  {
    if c == [] then 0.0
    else
      assert seq(|c| - 1, i requires 0 <= i < |c| - 1 => c[..|c| - 1][i].degree)
          == seq(|c|, i requires 0 <= i < |c| => c[i].degree)[..|c| - 1];
      DegreeSum(c[..|c| - 1]) + c[|c| - 1].degree
  }

  /** The visual degree the `clusters.forEach` callback gives member `i` of cluster `c`: its own
      degree when alone, its place in the 9-degree fan around the mean otherwise. */
  function PlacedDegree(c: seq<Ref>, i: nat): real
    requires i < |c|
  {
    if |c| == 1 then c[0].degree else FanDegree(|c|, DegreeSum(c) / |c| as real, i)
  }

  /** The writes one cluster makes, as (index, visual degree) pairs, member by member. */
  function ClusterWrites(c: seq<Ref>): seq<(nat, real)>
  {
    seq(|c|, i requires 0 <= i < |c| => (c[i].index, PlacedDegree(c, i)))
  }

  /** Every write the `clusters.forEach` makes, in order. */
  function FanWrites(css: seq<seq<Ref>>): seq<(nat, real)>
  {
    if css == [] then [] else FanWrites(css[..|css| - 1]) + ClusterWrites(css[|css| - 1])
  }

  /** `p.visualDegree = v`. Only bodies are ever written (the axis points are not drawn). */
  function SetVisual(e: Entry, v: real): Entry
  {
    match e
    case Body(_, _, _, _, _, _, _) => e.(visualDegree := v)
    case Axis(_, _) => e
  }

  function ApplyWrite(ps: seq<Entry>, w: (nat, real)): (r: seq<Entry>)
    ensures |r| == |ps|
  {
    if w.0 < |ps| then ps[w.0 := SetVisual(ps[w.0], w.1)] else ps
  }

  function ApplyWrites(ps: seq<Entry>, ws: seq<(nat, real)>): (r: seq<Entry>)
    ensures |r| == |ps|
  {
    if ws == [] then ps else ApplyWrite(ApplyWrites(ps, ws[..|ws| - 1]), ws[|ws| - 1])
  }

  /** `findClusters(planetsToDraw)` */
  function Clusters(ps: seq<Entry>, showExtended: bool): seq<seq<Ref>>
  {
    ClustersOf(SortBy(Select(ps, Drawn(showExtended), |ps|), RefDegree), RefDegree)
  }

  /** The layout's effect on `chartData`. */
  function LaidOut(ps: seq<Entry>, showExtended: bool): seq<Entry>
  {
    ApplyWrites(ps, FanWrites(Clusters(ps, showExtended)))
  }

  lemma ApplyWritesSnoc(ps: seq<Entry>, ws: seq<(nat, real)>, w: (nat, real))
    ensures ApplyWrites(ps, ws + [w]) == ApplyWrite(ApplyWrites(ps, ws), w)
  {
    assert (ws + [w])[..|ws|] == ws;
  }

  lemma {:induction false} ApplyWritesAppend(ps: seq<Entry>, a: seq<(nat, real)>, b: seq<(nat, real)>)
    ensures ApplyWrites(ps, a + b) == ApplyWrites(ApplyWrites(ps, a), b)
    decreases |b|
  {
    if b != [] {
      var b' := b[..|b| - 1];
      assert a + b == (a + b') + [b[|b| - 1]];
      ApplyWritesSnoc(ps, a + b', b[|b| - 1]);
      ApplyWritesAppend(ps, a, b');
      assert b == b' + [b[|b| - 1]];
      ApplyWritesSnoc(ApplyWrites(ps, a), b', b[|b| - 1]);
    } else {
      assert a + b == a;
    }
  }

  /** An element no write names is left as it was. */
  lemma {:induction false} ApplyWritesUntouched(ps: seq<Entry>, ws: seq<(nat, real)>, k: nat)
    requires k < |ps| && forall t :: 0 <= t < |ws| ==> ws[t].0 != k
    ensures ApplyWrites(ps, ws)[k] == ps[k]
  {
    if ws != [] {
      ApplyWritesUntouched(ps, ws[..|ws| - 1], k);
    }
  }

  /** With every index written at most once, each write lands. */
  lemma {:induction false} ApplyWritesDistinct(ps: seq<Entry>, ws: seq<(nat, real)>, t: nat)
    requires t < |ws| && ws[t].0 < |ps| && DistinctWrites(ws)
    ensures ApplyWrites(ps, ws)[ws[t].0] == SetVisual(ps[ws[t].0], ws[t].1)
  {
    var front := ws[..|ws| - 1];
    if t == |ws| - 1 {
      ApplyWritesUntouched(ps, front, ws[t].0);
    } else {
      ApplyWritesDistinct(ps, front, t);
    }
  }

  lemma {:induction false} FanWritesAppend(a: seq<seq<Ref>>, b: seq<seq<Ref>>)
    ensures FanWrites(a + b) == FanWrites(a) + FanWrites(b)
    decreases |b|
  {
    if b == [] {
      assert a + b == a;
    } else {
      var b', last := b[..|b| - 1], b[|b| - 1];
      var ab := a + b;
      assert ab[..|ab| - 1] == a + b' && ab[|ab| - 1] == last;
      FanWritesAppend(a, b');
      assert FanWrites(ab) == FanWrites(a + b') + ClusterWrites(last);
      assert FanWrites(b) == FanWrites(b') + ClusterWrites(last);
      AppendAssoc(FanWrites(a), FanWrites(b'), ClusterWrites(last));
    }
  }

  /** The writes follow the concatenated clusters, one per member, with its index. */
  lemma {:induction false} FanWritesIndices(css: seq<seq<Ref>>)
    ensures |FanWrites(css)| == |Flatten(css)|
    ensures forall t :: 0 <= t < |FanWrites(css)| ==> FanWrites(css)[t].0 == Flatten(css)[t].index
  {
    if css != [] {
      var init, last := css[..|css| - 1], css[|css| - 1];
      FanWritesIndices(init);
      var front: seq<(nat, real)> := FanWrites(init);
      var tail: seq<(nat, real)> := ClusterWrites(last);
      assert FanWrites(css) == front + tail;
      assert Flatten(css) == Flatten(init) + last;
      forall t | 0 <= t < |front + tail| ensures (front + tail)[t].0 == (Flatten(init) + last)[t].index {
        if t >= |front| {
          assert (front + tail)[t] == tail[t - |front|];
        }
      }
    }
  }

  /** Member `i` of cluster `ci` is written at position `|Flatten(css[..ci])| + i`, with the
      degree the callback gives it. */
  lemma FanWriteOf(css: seq<seq<Ref>>, ci: nat, i: nat)
    requires ci < |css| && i < |css[ci]|
    ensures |Flatten(css[..ci])| + i < |FanWrites(css)|
    ensures FanWrites(css)[|Flatten(css[..ci])| + i] == (css[ci][i].index, PlacedDegree(css[ci], i))
  {
    var before, upto, after := css[..ci], css[..ci + 1], css[ci + 1..];
    assert upto[..ci] == before && upto[ci] == css[ci];
    var front: seq<(nat, real)> := FanWrites(before);
    var mid: seq<(nat, real)> := ClusterWrites(css[ci]);
    assert FanWrites(upto) == front + mid;
    assert css == upto + after;
    FanWritesAppend(upto, after);
    FanWritesIndices(before);
    assert FanWrites(css) == (front + mid) + FanWrites(after);
    assert FanWrites(css)[|front| + i] == mid[i];
  }

  /** Every reference points at an element kept by `sel` and carries its degree. */
  predicate RefsInto(ps: seq<Entry>, sel: Selection, rs: seq<Ref>)
  {
    forall t :: 0 <= t < |rs| ==>
      rs[t].index < |ps| && Keeps(sel, ps[rs[t].index]) && rs[t].degree == ps[rs[t].index].absoluteDegree
  }

  /** No element is referred to twice. */
  predicate DistinctRefs(rs: seq<Ref>)
  {
    forall s, t :: 0 <= s < t < |rs| ==> rs[s].index != rs[t].index
  }

  /** No index is written twice. */
  predicate DistinctWrites(ws: seq<(nat, real)>)
  {
    forall s, u :: 0 <= s < u < |ws| ==> ws[s].0 != ws[u].0
  }

  /** A rearrangement of references with increasing indices repeats no index. */
  lemma PermutationDistinct(s: seq<Ref>, r: seq<Ref>)
    requires forall x, y :: 0 <= x < y < |s| ==> s[x].index < s[y].index
    requires multiset(r) == multiset(s)
    ensures DistinctRefs(r)
  {
    forall x, y | 0 <= x < y < |r| ensures r[x].index != r[y].index {
      if r[x].index == r[y].index {
        assert r[x] in multiset(s) && r[y] in multiset(s);
        var a :| 0 <= a < |s| && s[a] == r[x];
        var b :| 0 <= b < |s| && s[b] == r[y];
        assert a == b;
        CountTwo(r, x, y);
        CountOne(s, r[x]);
        assert false;
      }
    }
  }

  /** A rearrangement of references into the chart still refers into it. */
  lemma PermutationInto(ps: seq<Entry>, sel: Selection, s: seq<Ref>, r: seq<Ref>)
    requires RefsInto(ps, sel, s) && multiset(r) == multiset(s)
    ensures RefsInto(ps, sel, r)
  {
    forall t | 0 <= t < |r|
      ensures r[t].index < |ps| && Keeps(sel, ps[r[t].index]) && r[t].degree == ps[r[t].index].absoluteDegree
    {
      assert r[t] in multiset(s);
      var a :| 0 <= a < |s| && s[a] == r[t];
    }
  }

  /** The drawn list, sorted and clustered: every cluster member is a drawn element of the
      chart, carrying that element's degree, and no element appears twice. */
  lemma ClustersDrawn(ps: seq<Entry>, showExtended: bool, css: seq<seq<Ref>>)
    requires css == Clusters(ps, showExtended)
    ensures NonEmptyClusters(css)
    ensures RefsInto(ps, Drawn(showExtended), Flatten(css))
    ensures DistinctRefs(Flatten(css))
  {
    var drawn := Select(ps, Drawn(showExtended), |ps|);
    var sorted := SortBy(drawn, RefDegree);
    SelectSound(ps, Drawn(showExtended), |ps|);
    ClustersOfShape(sorted, RefDegree);
    PermutationInto(ps, Drawn(showExtended), drawn, sorted);
    PermutationDistinct(drawn, sorted);
  }

  /** Distinct references give distinct writes. */
  lemma FanWritesDistinct(css: seq<seq<Ref>>)
    requires DistinctRefs(Flatten(css))
    ensures DistinctWrites(FanWrites(css))
  {
    FanWritesIndices(css);
  }

  /** After the layout, the member `i` of cluster `ci` holds the visual degree the callback
      gives it: a lone body its own degree, the members of a larger cluster their places in
      the 9-degree fan around the cluster's mean. */
  lemma LaidOutPlacement(ps: seq<Entry>, showExtended: bool, ci: nat, i: nat)
    requires ci < |Clusters(ps, showExtended)| && i < |Clusters(ps, showExtended)[ci]|
    ensures Clusters(ps, showExtended)[ci][i].index < |ps|
    ensures Clusters(ps, showExtended)[ci][i].degree == ps[Clusters(ps, showExtended)[ci][i].index].absoluteDegree
    ensures LaidOut(ps, showExtended)[Clusters(ps, showExtended)[ci][i].index]
         == SetVisual(ps[Clusters(ps, showExtended)[ci][i].index], PlacedDegree(Clusters(ps, showExtended)[ci], i))
  {
    var css := Clusters(ps, showExtended);
    var ws := FanWrites(css);
    ClustersDrawn(ps, showExtended, css);
    FlattenAt(css, ci, i);
    var t := |Flatten(css[..ci])| + i;
    assert Flatten(css)[t] == css[ci][i];
    FanWriteOf(css, ci, i);
    FanWritesDistinct(css);
    LandedWrite(ps, ws, t, css[ci][i].index, PlacedDegree(css[ci], i));
  }

  /** With no index written twice, the write at position `t` lands. */
  lemma LandedWrite(ps: seq<Entry>, ws: seq<(nat, real)>, t: nat, k: nat, v: real)
    requires t < |ws| && ws[t] == (k, v) && k < |ps| && DistinctWrites(ws)
    ensures ApplyWrites(ps, ws)[k] == SetVisual(ps[k], v)
  {
    ApplyWritesDistinct(ps, ws, t);
  }

  /** After cluster `c` of the loop, the writes of the first `c + 1` clusters are applied. */
  lemma DrawStep(ps: seq<Entry>, clusters: seq<seq<Ref>>, c: nat)
    requires c < |clusters|
    ensures ApplyWrites(ApplyWrites(ps, FanWrites(clusters[..c])), ClusterWrites(clusters[c]))
         == ApplyWrites(ps, FanWrites(clusters[..c + 1]))
  {
    assert clusters[..c + 1][..c] == clusters[..c];
    ApplyWritesAppend(ps, FanWrites(clusters[..c]), ClusterWrites(clusters[c]));
  }

  /** The layout writes only the drawn bodies: every other element, and in particular the
      four axis points, is left exactly as it was. */
  lemma LaidOutUntouched(ps: seq<Entry>, showExtended: bool, k: nat)
    requires k < |ps| && !Keeps(Drawn(showExtended), ps[k])
    ensures LaidOut(ps, showExtended)[k] == ps[k]
  {
    var css := Clusters(ps, showExtended);
    ClustersDrawn(ps, showExtended, css);
    FanWritesIndices(css);
    ApplyWritesUntouched(ps, FanWrites(css), k);
  }

  /** In a chart whose pushed points are the axis points, every drawn element is a body, so
      the layout sets its visual degree. */
  lemma DrawnIsBody(ps: seq<Entry>, showExtended: bool, k: nat, v: real)
    requires AxisNamed(ps) && k < |ps| && Keeps(Drawn(showExtended), ps[k])
    ensures SetVisual(ps[k], v) == ps[k].(visualDegree := v)
  {
  }

  // ---------------------------------------------------------------------------------------
  // Hover test

  /** `ZODIAC_INNER_RADIUS - 10` for the axis points, `PLANET_RING_RADIUS` otherwise. */
  function HitRadius(name: string): real
  {
    if name in AxisNames then ZodiacInnerRadius - 10.0 else PlanetRingRadius
  }

  /** The point is hovered when the pointer, relative to the centre, is strictly closer than
      15 pixels to `(cos(angle) * radius, sin(angle) * radius)`. `cos` and `sin` take degrees.
      An axis point has no visual degree, so its angle is `NaN` and it is never hovered. */
  predicate Hovered(e: Entry, ascDegree: real, px: real, py: real, cos: real -> real, sin: real -> real)
  {
    match e
    case Axis(_, _) => false
    case Body(_, _, _, _, _, _, _) =>
      var angle := ScreenAngle(e.visualDegree, ascDegree);
      var x := cos(angle) * HitRadius(e.name);
      var y := sin(angle) * HitRadius(e.name);
      (px - x) * (px - x) + (py - y) * (py - y) < HoverDistance * HoverDistance
  }

  /** `dist(...) < 15` is the squared distance below 225, because the distance is the
      non-negative root of the squared distance. */
  lemma DistanceBelow(d: real, squared: real)
    requires d >= 0.0 && d * d == squared
    ensures d < HoverDistance <==> squared < HoverDistance * HoverDistance
  {
    if d < 15.0 {
      assert d * d <= d * 15.0;
      assert d * 15.0 < 15.0 * 15.0;
    } else {
      assert d * d >= d * 15.0;
      assert d * 15.0 >= 15.0 * 15.0;
    }
  }

  /** The indices of the hovered entries among the first `n` references of `active`. */
  function HoveredAmong(ps: seq<Entry>, active: seq<Ref>, n: nat, ascDegree: real, px: real, py: real,
                        cos: real -> real, sin: real -> real): (r: seq<nat>)
    requires n <= |active| && forall x :: 0 <= x < |active| ==> active[x].index < |ps|
    ensures |r| <= n
  {
    if n == 0 then []
    else
      HoveredAmong(ps, active, n - 1, ascDegree, px, py, cos, sin)
        + (if Hovered(ps[active[n - 1].index], ascDegree, px, py, cos, sin) then [active[n - 1].index] else [])
  }

  /** What `handleInteractivity` draws a box for: nothing without an Ascendant; otherwise each
      hovered body among `activePlanets`, in `chartData` order. */
  function HoverBoxes(ps: seq<Entry>, showExtended: bool, mouseX: real, mouseY: real,
                      cos: real -> real, sin: real -> real): seq<nat>
  {
    match FindEntry(ps, "ASC")
    case None => []
    case Some(a) =>
      var active := Select(ps, Active(showExtended), |ps|);
      SelectShape(ps, Active(showExtended), |ps|);
      HoveredAmong(ps, active, |active|, ps[a].absoluteDegree,
                   mouseX - CanvasSize / 2.0, mouseY - CanvasSize / 2.0, cos, sin)
  }

  /** The result lists exactly the hovered entries among the first `n` references. */
  lemma {:induction false} HoveredAmongMembers(ps: seq<Entry>, active: seq<Ref>, n: nat, ascDegree: real,
                                                px: real, py: real, cos: real -> real, sin: real -> real)
    requires n <= |active| && forall x :: 0 <= x < |active| ==> active[x].index < |ps|
    ensures forall k :: k in HoveredAmong(ps, active, n, ascDegree, px, py, cos, sin) <==>
      exists x :: 0 <= x < n && active[x].index == k && Hovered(ps[k], ascDegree, px, py, cos, sin)
  {
    if n > 0 {
      HoveredAmongMembers(ps, active, n - 1, ascDegree, px, py, cos, sin);
      var front := HoveredAmong(ps, active, n - 1, ascDegree, px, py, cos, sin);
      forall k ensures k in HoveredAmong(ps, active, n, ascDegree, px, py, cos, sin) <==>
          exists x :: 0 <= x < n && active[x].index == k && Hovered(ps[k], ascDegree, px, py, cos, sin)
      {
        if exists x :: 0 <= x < n && active[x].index == k && Hovered(ps[k], ascDegree, px, py, cos, sin) {
          var x :| 0 <= x < n && active[x].index == k && Hovered(ps[k], ascDegree, px, py, cos, sin);
          if x < n - 1 {
            assert k in front;
          }
        }
      }
    }
  }

  lemma IncreasingSnoc(front: seq<nat>, extra: seq<nat>, r: seq<nat>, top: nat)
    requires forall x, y :: 0 <= x < y < |front| ==> front[x] < front[y]
    requires forall x :: 0 <= x < |front| ==> front[x] < top
    requires extra == [] || extra == [top]
    requires r == front + extra
    ensures forall x, y :: 0 <= x < y < |r| ==> r[x] < r[y]
    ensures forall x :: 0 <= x < |r| ==> r[x] <= top
  {
    forall x | 0 <= x < |r| ensures r[x] <= top {
      if x < |front| { assert r[x] == front[x]; }
    }
    forall x, y | 0 <= x < y < |r| ensures r[x] < r[y] {
      assert r[x] == front[x];
      if y < |front| { assert r[y] == front[y]; }
    }
  }

  lemma {:induction false} HoveredAmongOrdered(ps: seq<Entry>, active: seq<Ref>, n: nat, ascDegree: real,
                                                px: real, py: real, cos: real -> real, sin: real -> real)
    requires n <= |active| && forall x :: 0 <= x < |active| ==> active[x].index < |ps|
    requires forall x, y :: 0 <= x < y < |active| ==> active[x].index < active[y].index
    ensures forall x, y :: 0 <= x < y < |HoveredAmong(ps, active, n, ascDegree, px, py, cos, sin)| ==>
      HoveredAmong(ps, active, n, ascDegree, px, py, cos, sin)[x] < HoveredAmong(ps, active, n, ascDegree, px, py, cos, sin)[y]
    ensures forall x :: 0 <= x < |HoveredAmong(ps, active, n, ascDegree, px, py, cos, sin)| ==>
      n > 0 && HoveredAmong(ps, active, n, ascDegree, px, py, cos, sin)[x] <= active[n - 1].index
  {
    if n > 0 {
      HoveredAmongOrdered(ps, active, n - 1, ascDegree, px, py, cos, sin);
      var front := HoveredAmong(ps, active, n - 1, ascDegree, px, py, cos, sin);
      var top := active[n - 1].index;
      if n > 1 {
        assert active[n - 2].index < top;
        assert forall x :: 0 <= x < |front| ==> front[x] < top;
      } else {
        assert front == [];
      }
      var extra := if Hovered(ps[top], ascDegree, px, py, cos, sin) then [top] else [];
      var r := HoveredAmong(ps, active, n, ascDegree, px, py, cos, sin);
      assert r == front + extra;
      IncreasingSnoc(front, extra, r, top);
      assert forall x :: 0 <= x < |r| ==> r[x] <= active[n - 1].index;
    } else {
      assert HoveredAmong(ps, active, n, ascDegree, px, py, cos, sin) == [];
    }
  }

  /** Among the references `active`, the result lists exactly the hovered entries, each once,
      in increasing index order: every hovered body gets its box, with no nearest-choice. */
  lemma HoveredAmongExact(ps: seq<Entry>, active: seq<Ref>, n: nat, ascDegree: real,
                          px: real, py: real, cos: real -> real, sin: real -> real)
    requires n <= |active| && forall x :: 0 <= x < |active| ==> active[x].index < |ps|
    requires forall x, y :: 0 <= x < y < |active| ==> active[x].index < active[y].index
    ensures forall k :: k in HoveredAmong(ps, active, n, ascDegree, px, py, cos, sin) <==>
      exists x :: 0 <= x < n && active[x].index == k && Hovered(ps[k], ascDegree, px, py, cos, sin)
    ensures forall x, y :: 0 <= x < y < |HoveredAmong(ps, active, n, ascDegree, px, py, cos, sin)| ==>
      HoveredAmong(ps, active, n, ascDegree, px, py, cos, sin)[x] < HoveredAmong(ps, active, n, ascDegree, px, py, cos, sin)[y]
  {
    HoveredAmongMembers(ps, active, n, ascDegree, px, py, cos, sin);
    HoveredAmongOrdered(ps, active, n, ascDegree, px, py, cos, sin);
  }

  /** An entry gets a box exactly when an Ascendant exists and the entry is an active body
      the pointer is within 15 pixels of; boxes come in `chartData` order, each once. */
  lemma HoverBoxesExact(ps: seq<Entry>, showExtended: bool, mouseX: real, mouseY: real,
                        cos: real -> real, sin: real -> real, k: nat)
    ensures var boxes := HoverBoxes(ps, showExtended, mouseX, mouseY, cos, sin);
      && (k in boxes <==>
            && FindEntry(ps, "ASC").Some? && k < |ps| && Keeps(Active(showExtended), ps[k])
            && Hovered(ps[k], ps[FindEntry(ps, "ASC").value].absoluteDegree,
                       mouseX - CanvasSize / 2.0, mouseY - CanvasSize / 2.0, cos, sin))
      && (forall x, y :: 0 <= x < y < |boxes| ==> boxes[x] < boxes[y])
  {
    if FindEntry(ps, "ASC").Some? {
      var a := FindEntry(ps, "ASC").value;
      var active := Select(ps, Active(showExtended), |ps|);
      SelectShape(ps, Active(showExtended), |ps|);
      var px, py := mouseX - CanvasSize / 2.0, mouseY - CanvasSize / 2.0;
      HoveredAmongExact(ps, active, |active|, ps[a].absoluteDegree, px, py, cos, sin);
      if k < |ps| && Keeps(Active(showExtended), ps[k]) {
        assert Ref(k, ps[k].absoluteDegree) in active;
      }
    }
  }

  // ---------------------------------------------------------------------------------------
  // The chart state

  /** The loop of `handleInteractivity` over `activePlanets`: a box for every hovered body,
      and the flag set once one is hovered. */
  method HoverScan(ps: seq<Entry>, active: seq<Ref>, ascDegree: real, px: real, py: real,
                   cos: real -> real, sin: real -> real)
    returns (boxes: seq<nat>, hoveredOnPlanet: bool)
    requires forall x :: 0 <= x < |active| ==> active[x].index < |ps|
    ensures boxes == HoveredAmong(ps, active, |active|, ascDegree, px, py, cos, sin)
    ensures hoveredOnPlanet <==> |boxes| > 0
  {
    boxes := [];
    hoveredOnPlanet := false;
    var n := 0;
    while n < |active|
      invariant 0 <= n <= |active|
      invariant boxes == HoveredAmong(ps, active, n, ascDegree, px, py, cos, sin)
      invariant hoveredOnPlanet <==> |boxes| > 0
    {
      var k := active[n].index;
      if Hovered(ps[k], ascDegree, px, py, cos, sin) {
        hoveredOnPlanet := true;
        boxes := boxes + [k];
      }
      n := n + 1;
    }
  }

  /** The renderer's global chart state. */
  class Chart {
    var chartData: seq<Entry>
    var houseCusps: seq<Cusp>
    var aspects: seq<Aspect>

    constructor()
      ensures chartData == [] && houseCusps == [] && aspects == []
    {
      chartData := [];
      houseCusps := [];
      aspects := [];
    }

    /** `parseDataAndGenerateHouses` on the chart text (the source's built-in `data`). */
    method ParseDataAndGenerateHouses(text: string) returns (outcome: ParseOutcome)
      requires NumericText(text)
      modifies this
      ensures aspects == old(aspects)
      ensures ParseText(text).None? ==>
        outcome == ThrewTypeError && chartData == old(chartData) && houseCusps == old(houseCusps)
      ensures ParseText(text).Some? ==>
        HousesFrom(ParseText(text).value, old(houseCusps), outcome, chartData, houseCusps)
    {
      var parsed := ParseText(text);
      if parsed.None? {
        return ThrewTypeError;
      }
      outcome := GenerateHouses(parsed.value);
    }

    /** The part after the parse: `chartData` is replaced, the twelve cusps are appended to
        what `houseCusps` already holds, and `DSC` and `IC` are pushed. */
    method GenerateHouses(ps: seq<Entry>) returns (outcome: ParseOutcome)
      modifies this
      ensures aspects == old(aspects)
      ensures HousesFrom(ps, old(houseCusps), outcome, chartData, houseCusps)
    {
      chartData := ps;
      var ascIndex := FindEntry(chartData, "ASC");
      if ascIndex.None? {
        return NoAscendant;
      }
      var asc := chartData[ascIndex.value];
      var i := 0;
      while i < 12
        invariant 0 <= i <= 12
        invariant houseCusps == old(houseCusps) + CuspsFrom(asc.absoluteDegree)[..i]
        invariant chartData == ps && aspects == old(aspects)
      {
        houseCusps := houseCusps + [Cusp(i + 1, Rem360(asc.absoluteDegree + 30.0 * i as real))];
        i := i + 1;
      }
      assert CuspsFrom(asc.absoluteDegree)[..12] == CuspsFrom(asc.absoluteDegree);
      var dsc := Axis("DSC", Rem360(asc.absoluteDegree + 180.0));
      var mcIndex := FindEntry(chartData, "MC");
      if mcIndex.None? {
        return NoMidheaven;
      }
      var ic := Axis("IC", Rem360(chartData[mcIndex.value].absoluteDegree + 180.0));
      chartData := chartData + [dsc, ic];
      return Completed;
    }

    /** `calculateAspects`: the pairs of the core-filtered list, in order. */
    method CalculateAspects()
      modifies this
      ensures aspects == AspectsOf(Select(chartData, Core, |chartData|))
      ensures chartData == old(chartData) && houseCusps == old(houseCusps)
    {
      aspects := [];
      var planets := Select(chartData, Core, |chartData|);
      ScanRows(AspectDefs, planets);
    }

    /** The outer loop over `p1`. */
    method ScanRows(defs: seq<AspectDef>, planets: seq<Ref>)
      requires aspects == []
      modifies this
      ensures chartData == old(chartData) && houseCusps == old(houseCusps)
      ensures aspects == AspectsBefore(defs, planets, |planets|)
    {
      var i := 0;
      while i < |planets|
        invariant 0 <= i <= |planets|
        invariant aspects == AspectsBefore(defs, planets, i)
        invariant chartData == old(chartData) && houseCusps == old(houseCusps)
      {
        ScanRow(defs, planets, i);
        i := i + 1;
      }
    }

    /** The inner loop for `p1 = planets[i]`. */
    method ScanRow(defs: seq<AspectDef>, planets: seq<Ref>, i: nat)
      requires i < |planets|
      modifies this
      ensures chartData == old(chartData) && houseCusps == old(houseCusps)
      ensures aspects == old(aspects) + RowAspects(defs, planets, i, |planets|)
    {
      var j := i + 1;
      while j < |planets|
        invariant i + 1 <= j <= |planets|
        invariant aspects == old(aspects) + RowAspects(defs, planets, i, j)
        invariant chartData == old(chartData) && houseCusps == old(houseCusps)
      {
        ScanPair(defs, planets, i, j);
        j := j + 1;
      }
    }

    /** The body of the inner loop: push the first table entry whose orb admits the
        separation, then `break`. */
    method ScanPair(defs: seq<AspectDef>, planets: seq<Ref>, i: nat, j: nat)
      requires i < j < |planets|
      modifies this
      ensures chartData == old(chartData) && houseCusps == old(houseCusps)
      ensures aspects == old(aspects) + OptionList(PairAspect(defs, planets, i, j))
    {
      var p1 := planets[i];
      var p2 := planets[j];
      var angleDiff := Abs(p1.degree - p2.degree);
      if angleDiff > 180.0 {
        angleDiff := 360.0 - angleDiff;
      }
      assert angleDiff == Separation(p1.degree, p2.degree);
      var k := 0;
      while k < |defs|
        invariant 0 <= k <= |defs|
        invariant forall m :: 0 <= m < k ==> !Matches(defs[m], angleDiff)
        invariant aspects == old(aspects)
      {
        var aspect := defs[k];
        if Abs(angleDiff - aspect.angle) <= aspect.orb {
          aspects := aspects + [Aspect(p1.index, p2.index, aspect.name, aspect.angle, aspect.orb,
                                       aspect.color, aspect.weight, aspect.style)];
          PairAspectFound(defs, planets, i, j, k);
          return;
        }
        k := k + 1;
      }
      PairAspectNotFound(defs, planets, i, j);
    }

    /** The layout part of `drawPlanets`: lone bodies are reset to their own degree, larger
        clusters fanned out, each written into the body itself. */
    method DrawPlanets(showExtended: bool)
      modifies this
      ensures chartData == LaidOut(old(chartData), showExtended)
      ensures houseCusps == old(houseCusps) && aspects == old(aspects)
    {
      var planetsToDraw := Select(chartData, Drawn(showExtended), |chartData|);
      var clusters := FindClusters(planetsToDraw, RefDegree);
      ClustersDrawn(chartData, showExtended, clusters);
      var c := 0;
      while c < |clusters|
        invariant 0 <= c <= |clusters|
        invariant chartData == ApplyWrites(old(chartData), FanWrites(clusters[..c]))
        invariant houseCusps == old(houseCusps) && aspects == old(aspects)
      {
        PlaceCluster(clusters[c]);
        DrawStep(old(chartData), clusters, c);
        c := c + 1;
      }
      assert clusters[..|clusters|] == clusters;
    }

    /** The `clusters.forEach` callback for one cluster. */
    method PlaceCluster(cluster: seq<Ref>)
      requires |cluster| > 0
      modifies this
      ensures chartData == ApplyWrites(old(chartData), ClusterWrites(cluster))
      ensures houseCusps == old(houseCusps) && aspects == old(aspects)
    {
      var clusterSize := |cluster|;
      ghost var ws := ClusterWrites(cluster);
      if clusterSize == 1 {
        var p := cluster[0];
        assert ws == [] + [(p.index, p.degree)];
        ApplyWritesSnoc(old(chartData), [], ws[0]);
        if p.index < |chartData| {
          chartData := chartData[p.index := SetVisual(chartData[p.index], p.degree)];
        }
      } else {
        var totalArc := (clusterSize - 1) as real * 9.0;
        var avgAngle := DegreeSum(cluster) / clusterSize as real;
        var startAngle := avgAngle - totalArc / 2.0;
        var i := 0;
        while i < clusterSize
          invariant 0 <= i <= clusterSize
          invariant chartData == ApplyWrites(old(chartData), ws[..i])
          invariant houseCusps == old(houseCusps) && aspects == old(aspects)
        {
          var p := cluster[i];
          var v := startAngle + i as real * (totalArc / (clusterSize - 1) as real);
          FanValue(clusterSize, avgAngle, i, totalArc, startAngle, v);
          assert ws[i] == (p.index, v);
          assert ws[..i + 1] == ws[..i] + [ws[i]];
          ApplyWritesSnoc(old(chartData), ws[..i], ws[i]);
          if p.index < |chartData| {
            chartData := chartData[p.index := SetVisual(chartData[p.index], v)];
          }
          i := i + 1;
        }
        assert ws[..clusterSize] == ws;
      }
    }

    /** `handleInteractivity` with the pointer at (`mouseX`, `mouseY`): the bodies it draws a
        box for, and the `hoveredOnPlanet` flag. */
    method HandleInteractivity(mouseX: real, mouseY: real, showExtended: bool,
                               cos: real -> real, sin: real -> real)
      returns (boxes: seq<nat>, hoveredOnPlanet: bool)
      ensures boxes == HoverBoxes(chartData, showExtended, mouseX, mouseY, cos, sin)
      ensures hoveredOnPlanet <==> |boxes| > 0
    {
      boxes := [];
      hoveredOnPlanet := false;
      var ps := chartData;
      var ascIndex := FindEntry(ps, "ASC");
      if ascIndex.None? {
        return;
      }
      var ascDegree := ps[ascIndex.value].absoluteDegree;
      var activePlanets := Select(ps, Active(showExtended), |ps|);
      SelectShape(ps, Active(showExtended), |ps|);
      var px, py := mouseX - CanvasSize / 2.0, mouseY - CanvasSize / 2.0;
      boxes, hoveredOnPlanet := HoverScan(ps, activePlanets, ascDegree, px, py, cos, sin);
      assert boxes == HoverBoxes(ps, showExtended, mouseX, mouseY, cos, sin);
    }
  }
}
