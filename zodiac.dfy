/** The twelve signs of the zodiac, as both charts and both ephemeris scripts list them, and
    the sign lookup that the ephemeris scripts' `getZodiacSign` performs. */
module Zodiac {
  import opened JsNumber

  /** `zodiacSigns`: the canonical order, starting at Aries. */
  const SignNames: seq<string> := ["Aries", "Taurus", "Gemini", "Cancer", "Leo", "Virgo", "Libra",
                                   "Scorpio", "Sagittarius", "Capricorn", "Aquarius", "Pisces"]

  predicate IsLetter(c: char)
  {
    'A' <= c <= 'Z' || 'a' <= c <= 'z'
  }

  /** From index `j` on, `s` holds ASCII letters only. */
  predicate LettersFrom(s: string, j: nat)
    decreases |s| - j
  {
    j >= |s| || (IsLetter(s[j]) && LettersFrom(s, j + 1))
  }

  lemma {:induction false} LettersFromAll(s: string, j: nat)
    requires LettersFrom(s, j)
    ensures forall k :: j <= k < |s| ==> IsLetter(s[k])
    decreases |s| - j
  {
    if j < |s| {
      LettersFromAll(s, j + 1);
    }
  }

  /** Every sign name is a non-empty word of letters. */
  lemma SignNamesLetters(sign: string)
    requires sign in SignNames
    ensures |sign| > 0 && forall k :: 0 <= k < |sign| ==> IsLetter(sign[k])
  {
    assert forall i :: 0 <= i < |SignNames| ==> |SignNames[i]| > 0 && LettersFrom(SignNames[i], 0);
    LettersFromAll(sign, 0);
  }

  /** One entry of the ephemeris scripts' `ZODIAC_SIGNS` table. */
  datatype ZodiacSign = ZodiacSign(name: string, startDegree: int, element: string, symbol: string)

  const ZodiacSigns: seq<ZodiacSign> := [
    ZodiacSign("Aries", 0, "Fire", "♈"),
    ZodiacSign("Taurus", 30, "Earth", "♉"),
    ZodiacSign("Gemini", 60, "Air", "♊"),
    ZodiacSign("Cancer", 90, "Water", "♋"),
    ZodiacSign("Leo", 120, "Fire", "♌"),
    ZodiacSign("Virgo", 150, "Earth", "♍"),
    ZodiacSign("Libra", 180, "Air", "♎"),
    ZodiacSign("Scorpio", 210, "Water", "♏"),
    ZodiacSign("Sagittarius", 240, "Fire", "♐"),
    ZodiacSign("Capricorn", 270, "Earth", "♑"),
    ZodiacSign("Aquarius", 300, "Air", "♒"),
    ZodiacSign("Pisces", 330, "Water", "♓")
  ]

  /** The sign table and the name list agree, and sign `i` starts at `30 i` degrees. */
  lemma TableAgreesWithNames()
    ensures |ZodiacSigns| == |SignNames| == 12
    ensures forall i :: 0 <= i < 12 ==> ZodiacSigns[i].name == SignNames[i]
    ensures forall i :: 0 <= i < 12 ==> ZodiacSigns[i].startDegree == 30 * i
  {
  }

  /** No sign name appears twice, so `indexOf` and position agree. */
  lemma SignNamesDistinct()
    ensures forall i, j :: 0 <= i < j < 12 ==> SignNames[i] != SignNames[j]
  {
  }

  /** `zodiacSigns.indexOf(name)`: the position of `name`, or -1 when it is not a sign. */
  function IndexOf(name: string): (r: int)
    ensures -1 <= r < 12
    ensures r >= 0 ==> SignNames[r] == name
    ensures r == -1 <==> name !in SignNames
  {
    IndexFrom(name, 0)
  }

  function IndexFrom(name: string, i: nat): (r: int)
    requires i <= 12
    ensures r == -1 || i <= r < 12
    ensures r >= 0 ==> SignNames[r] == name
    ensures r == -1 <==> name !in SignNames[i..]
    decreases 12 - i
  {
    if i == 12 then -1 else if SignNames[i] == name then i else IndexFrom(name, i + 1)
  }

  /** The index of a name is its position in the list. */
  lemma IndexOfPosition(i: nat)
    requires i < 12
    ensures IndexOf(SignNames[i]) == i
  {
    SignNamesDistinct();
  }

  /** The test `getZodiacSign` applies to entry `i`: `start_i <= x < start_(i+1)`, where the
      successor of Pisces wraps round to Aries and so has start 0. */
  predicate InSlot(x: real, i: nat)
    requires i < 12
  {
    ZodiacSigns[i].startDegree as real <= x < ZodiacSigns[(i + 1) % 12].startDegree as real
  }

  /** The first entry from `i` on whose test passes; Aries when none does. */
  function FirstSlotFrom(x: real, i: nat): (r: nat)
    requires i <= 12
    ensures r < 12
    decreases 12 - i
  {
    if i == 12 then 0 else if InSlot(x, i) then i else FirstSlotFrom(x, i + 1)
  }

  /** The position in `ZODIAC_SIGNS` of the entry `getZodiacSign(degree)` returns: it scans the
      table for `degree % 360` and falls back to Aries. The Pisces test `330 <= x < 0` never
      holds, so [330, 360) and every negative remainder land on the Aries fallback. */
  function SignSlot(degree: real): (r: nat)
    ensures r < 12
    ensures 0.0 <= Rem360(degree) < 330.0 ==> r == Floor(Rem360(degree) / 30.0)
    ensures Rem360(degree) < 0.0 || Rem360(degree) >= 330.0 ==> r == 0
  {
    var x := Rem360(degree);
    SlotScan(x, 0);
    FirstSlotFrom(x, 0)
  }

  lemma {:induction false} SlotScan(x: real, i: nat)
    requires i <= 12
    ensures 0.0 <= x < 330.0 && i as real * 30.0 <= x ==> FirstSlotFrom(x, i) == Floor(x / 30.0)
    ensures x < 0.0 || x >= 330.0 ==> FirstSlotFrom(x, i) == 0
    decreases 12 - i
  {
    if i < 12 {
      SlotScan(x, i + 1);
      InSlotRange(x, i);
      SignFloorChar(x, i);
    }
  }

  /** Entry `i` before Pisces tests the 30 degrees from `30 i`; the Pisces test never holds. */
  lemma InSlotRange(x: real, i: nat)
    requires i < 12
    ensures i < 11 ==> (InSlot(x, i) <==> 30.0 * i as real <= x < 30.0 * i as real + 30.0)
    ensures i == 11 ==> !InSlot(x, i)
  {
    StartDegrees();
  }

  lemma StartDegrees()
    ensures forall i :: 0 <= i < 12 ==> ZodiacSigns[i].startDegree == 30 * i
  {
  }

  /** Whatever the degree, the Pisces entry is never selected. */
  lemma PiscesNeverSelected(degree: real)
    ensures SignSlot(degree) != 11
  {
    var x := Rem360(degree);
    if 0.0 <= x < 330.0 {
      SignFloorChar(x, 11);
    }
  }
}
