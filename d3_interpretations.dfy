/** The D3 renderer's tooltip texts, `getPlanetInterpretation` and `getAspectInterpretation`.
    The interpretation tables the page loads are a parameter; a string entry counts as present
    the way JavaScript's `&&` reads it: the key is there and the text is not empty. */
module D3Interpretations {
  import opened Wrappers
  import opened JsString
  import D3Chart
  import JsNumber

  /** `interpretations.aspects[type]`: the general text and the optional per-pair texts. */
  datatype AspectText = AspectText(general: string, planets: Option<map<string, string>>)

  /** The global `interpretations`, whose two tables may be missing. */
  datatype Interpretations = Interpretations(planets: Option<map<string, string>>,
                                             aspects: Option<map<string, AspectText>>)

  /** `table && table[key]` is truthy. */
  predicate HasText(table: Option<map<string, string>>, key: string)
  {
    table.Some? && key in table.value && table.value[key] != ""
  }

  const RetrogradeNote: string :=
    "<br><br><em>Retrograde: This planet's energy is internalized and may manifest differently than usual.</em>"

  /** The bold title and the `Degree:` line, the minute padded to two digits. */
  function PlanetHeading(p: D3Chart.Position): string
  {
    "<strong>" + p.planet + " in " + p.sign + "</strong><br>"
      + "Degree: " + NatToString(p.degree) + "°" + PadStart(NatToString(p.minute), 2, '0') + "'<br><br>"
  }

  /** The table entry for the body, or the generic sentence. */
  function PlanetBody(interp: Interpretations, name: string): string
  {
    if HasText(interp.planets, name) then interp.planets.value[name]
    else name + " represents core energies and themes in your chart."
  }

  /** `getPlanetInterpretation(planet)` */
  function PlanetInterpretation(interp: Interpretations, p: D3Chart.Position): string
  {
    PlanetHeading(p) + PlanetBody(interp, p.planet) + (if p.isRetrograde then RetrogradeNote else "")
  }

  /** The text depends on the body's name, sign, degree, minute and retrograde flag only:
      its longitude, visual degree and house do not show. */
  lemma PlanetInterpretationFields(interp: Interpretations, p: D3Chart.Position, q: D3Chart.Position)
    requires p.planet == q.planet && p.sign == q.sign && p.degree == q.degree
    requires p.minute == q.minute && p.isRetrograde == q.isRetrograde
    ensures PlanetInterpretation(interp, p) == PlanetInterpretation(interp, q)
  {
  }

  /** A retrograde body's text is the direct body's text followed by the retrograde note. */
  lemma PlanetInterpretationRetrograde(interp: Interpretations, p: D3Chart.Position)
    ensures PlanetInterpretation(interp, p.(isRetrograde := true))
         == PlanetInterpretation(interp, p.(isRetrograde := false)) + RetrogradeNote
  {
    var r, d := p.(isRetrograde := true), p.(isRetrograde := false);
    assert PlanetHeading(r) == PlanetHeading(d);
    assert PlanetBody(interp, r.planet) == PlanetBody(interp, d.planet);
    var front := PlanetHeading(d) + PlanetBody(interp, d.planet);
    assert PlanetInterpretation(interp, r) == front + RetrogradeNote;
    assert PlanetInterpretation(interp, d) == front + "";
    assert front + "" == front;
  }

  /** The `Degree:` line reads back: the degree is the digit run before `°`, and the minute the
      run of at least two digits after it, so a minute below ten gets one leading zero. */
  lemma PlanetHeadingFields(p: D3Chart.Position)
    ensures var d := NatToString(p.degree);
            var m := PadStart(NatToString(p.minute), 2, '0');
      && PlanetHeading(p) == "<strong>" + p.planet + " in " + p.sign + "</strong><br>Degree: " + d + "°" + m + "'<br><br>"
      && AllDigits(d) && DigitsValue(d) == p.degree
      && |m| >= 2 && AllDigits(m) && DigitsValue(m) == p.minute
      && (p.minute < 10 ==> m[0] == '0')
  {
    PaddedNatValue(p.minute);
  }

  /** `aspectData.planets[planetKey] || aspectData.planets[reverseKey]`: the entry for the pair
      in the order the aspect records it, else the one for the reverse order. */
  function SpecificText(table: Option<map<string, string>>, p1: string, p2: string): (r: Option<string>)
    ensures r.Some? <==> HasText(table, p1 + "_" + p2) || HasText(table, p2 + "_" + p1)
  {
    if HasText(table, p1 + "_" + p2) then Some(table.value[p1 + "_" + p2])
    else if HasText(table, p2 + "_" + p1) then Some(table.value[p2 + "_" + p1])
    else None
  }

  /** The ordered key wins over the reverse one, and the reverse key is used only when the
      ordered one has no text. */
  lemma SpecificTextOrder(table: Option<map<string, string>>, p1: string, p2: string)
    ensures HasText(table, p1 + "_" + p2) ==> SpecificText(table, p1, p2) == Some(table.value[p1 + "_" + p2])
    ensures !HasText(table, p1 + "_" + p2) && HasText(table, p2 + "_" + p1) ==>
      SpecificText(table, p1, p2) == Some(table.value[p2 + "_" + p1])
  {
  }

  /** When the table has no two differing texts for the two orders of a pair, the order in
      which the aspect names its bodies does not matter. */
  lemma SpecificTextSymmetric(table: Option<map<string, string>>, p1: string, p2: string)
    requires HasText(table, p1 + "_" + p2) && HasText(table, p2 + "_" + p1) ==>
      table.value[p1 + "_" + p2] == table.value[p2 + "_" + p1]
    ensures SpecificText(table, p1, p2) == SpecificText(table, p2, p1)
  {
  }

  /** The section after the `Orb:` line. */
  function AspectBody(interp: Interpretations, p1: string, p2: string, aspectType: string): string
  {
    if interp.aspects.Some? && aspectType in interp.aspects.value then
      var data := interp.aspects.value[aspectType];
      "<strong>General:</strong> " + data.general + "<br><br>"
        + match SpecificText(data.planets, p1, p2)
          case Some(t) => "<strong>Specific:</strong> " + t
          case None => ""
    else
      "This " + ToLowerAscii(aspectType) + " aspect creates a connection between " + p1 + " and " + p2 + "."
  }

  /** `getAspectInterpretation(aspect)`: the aspect's two bodies are the positions it points at. */
  function AspectInterpretation(interp: Interpretations, ps: seq<D3Chart.Position>, a: D3Chart.Aspect): string
    requires a.planet1 < |ps| && a.planet2 < |ps|
  {
    var p1 := ps[a.planet1].planet;
    var p2 := ps[a.planet2].planet;
    "<strong>" + p1 + " " + a.aspect + " " + p2 + "</strong><br>"
      + "Orb: " + ToFixed1(a.orb) + "°<br><br>"
      + AspectBody(interp, p1, p2, a.aspect)
  }

  /** The recorded orb is never negative, so the `Orb:` field is `units.tenth`, the nearest
      tenth to the orb (the larger of two equally near). */
  lemma AspectOrbField(a: D3Chart.Aspect, m: int)
    requires a.orb >= 0.0
    ensures var t := ToFixed1(a.orb);
      && |t| >= 3 && t[|t| - 2] == '.' && AllDigits(t[..|t| - 2]) && IsDigit(t[|t| - 1])
      && var n := DigitsValue(t[..|t| - 2]) * 10 + (t[|t| - 1] as int - '0' as int);
         && n == Tenths(a.orb)
         && JsNumber.Abs(n as real / 10.0 - a.orb) <= JsNumber.Abs(m as real / 10.0 - a.orb)
  {
    TenthsTextShape(Tenths(a.orb));
    TenthsNearest(a.orb, m);
  }
}
