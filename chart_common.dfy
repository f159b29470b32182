/** What the D3 and the p5 chart have in common: the body lists, the angular separation, the
    ordered aspect table scan, the screen-angle convention, and the layout machinery (a stable
    sort by degree, single-linkage clustering, and the 9-degree fan of a cluster). */
module ChartCommon {
  import opened Wrappers
  import opened JsNumber
  import opened JsString

  /** Keys of `planetSymbols`: the bodies that have a glyph. */
  const GlyphNames: set<string> := {"Sun", "Moon", "Mercury", "Venus", "Mars", "Jupiter", "Saturn",
                                    "Uranus", "Neptune", "Pluto", "Node", "Lilith", "Chiron",
                                    "Fortune", "Vertex", "ASC", "MC", "DSC", "IC"}

  /** The properties every object literal inherits from `Object.prototype`: `planetSymbols[name]`
      is a function (or the prototype object itself) for these, hence truthy. */
  const PrototypeNames: set<string> := {"constructor", "hasOwnProperty", "isPrototypeOf",
                                        "propertyIsEnumerable", "toLocaleString", "toString",
                                        "valueOf", "__proto__", "__defineGetter__",
                                        "__defineSetter__", "__lookupGetter__", "__lookupSetter__"}

  /** The truthiness test `planetSymbols[name]`: an own glyph key or an inherited property. */
  predicate HasSymbol(name: string)
  {
    name in GlyphNames || name in PrototypeNames
  }

  /** `extendedPlanetNames` */
  const ExtendedNames: seq<string> := ["Chiron", "Lilith", "Node", "Fortune", "Vertex"]

  /** `coreAspectBodies`: the ten planets and the Ascendant. */
  const CoreAspectBodies: seq<string> := ["Sun", "Moon", "Mercury", "Venus", "Mars", "Jupiter",
                                          "Saturn", "Uranus", "Neptune", "Pluto", "ASC"]

  /** The four axis points, never drawn as planet glyphs. */
  const AxisNames: seq<string> := ["ASC", "MC", "DSC", "IC"]

  /** `CLUSTER_THRESHOLD` */
  const ClusterThreshold: real := 12.0

  /** The fixed gap, in degrees, between neighbouring glyphs of a fanned-out cluster. */
  const FanStep: real := 9.0

  /** One entry of `aspectDefs`, in declaration order. */
  datatype AspectDef = AspectDef(name: string, angle: real, orb: real, color: string, weight: real, style: string)

  /** The shortest arc between two longitudes: `|a - b|`, folded to `360 - d` above 180. */
  function Separation(a: real, b: real): (d: real)
    ensures 0.0 <= a < 360.0 && 0.0 <= b < 360.0 ==> 0.0 <= d <= 180.0
    ensures Abs(a - b) <= 180.0 ==> d == Abs(a - b)
    ensures Abs(a - b) > 180.0 ==> d == 360.0 - Abs(a - b)
  {
    var diff := Abs(a - b);
    if diff > 180.0 then 360.0 - diff else diff
  }

  /** The separation does not depend on which body comes first. */
  lemma SeparationSymmetric(a: real, b: real)
    ensures Separation(a, b) == Separation(b, a)
  {
    assert Abs(a - b) == Abs(b - a);
  }

  /** `Math.abs(angleDiff - aspect.angle) <= aspect.orb` */
  predicate Matches(def: AspectDef, angleDiff: real)
  {
    Abs(angleDiff - def.angle) <= def.orb
  }

  /** The position of the entry the `for ... break` scan stops at: the first entry, in table
      order, whose orb admits the separation; `None` when no entry does. */
  function FirstMatch(table: seq<AspectDef>, angleDiff: real): (r: Option<nat>)
    ensures r.Some? ==> r.value < |table|
  {
    FirstMatchFrom(table, angleDiff, 0)
  }

  function FirstMatchFrom(table: seq<AspectDef>, angleDiff: real, i: nat): (r: Option<nat>)
    requires i <= |table|
    ensures r.Some? ==> i <= r.value < |table|
    decreases |table| - i
  {
    if i == |table| then None
    else if Matches(table[i], angleDiff) then Some(i)
    else FirstMatchFrom(table, angleDiff, i + 1)
  }

  /** The scan from `i` finds the first entry at or after `i` that admits the separation,
      and nothing exactly when no such entry exists. */
  lemma {:induction false} FirstMatchFromSpec(table: seq<AspectDef>, angleDiff: real, i: nat)
    requires i <= |table|
    ensures var r := FirstMatchFrom(table, angleDiff, i);
      && (r.Some? ==> Matches(table[r.value], angleDiff))
      && (r.Some? ==> forall k :: i <= k < r.value ==> !Matches(table[k], angleDiff))
      && (r.None? <==> forall k :: i <= k < |table| ==> !Matches(table[k], angleDiff))
    decreases |table| - i
  {
    if i < |table| && !Matches(table[i], angleDiff) {
      FirstMatchFromSpec(table, angleDiff, i + 1);
    }
  }

  /** `FirstMatch` is the first entry that admits the separation; it finds nothing exactly
      when no entry does. */
  lemma FirstMatchSpec(table: seq<AspectDef>, angleDiff: real)
    ensures FirstMatch(table, angleDiff).Some? ==> Matches(table[FirstMatch(table, angleDiff).value], angleDiff)
    ensures FirstMatch(table, angleDiff).Some? ==>
      forall k :: 0 <= k < FirstMatch(table, angleDiff).value ==> !Matches(table[k], angleDiff)
    ensures FirstMatch(table, angleDiff).None? <==> forall k :: 0 <= k < |table| ==> !Matches(table[k], angleDiff)
  {
    FirstMatchFromSpec(table, angleDiff, 0);
  }

  /** No two orb intervals `[angle - orb, angle + orb]` of the table overlap. */
  predicate OrbsDisjoint(table: seq<AspectDef>)
  {
    forall i, j :: 0 <= i < j < |table| ==>
      OrbApart(table[i], table[j])
  }

  /** With disjoint orbs at most one entry can match, so the first match is the only match
      and declaration order cannot change the outcome. */
  lemma FirstMatchIsOnlyMatch(table: seq<AspectDef>, angleDiff: real, k: nat)
    requires OrbsDisjoint(table)
    requires k < |table| && Matches(table[k], angleDiff)
    ensures FirstMatch(table, angleDiff) == Some(k)
  {
    FirstMatchSpec(table, angleDiff);
    forall j | 0 <= j < k ensures !Matches(table[j], angleDiff) {
      assert OrbApart(table[j], table[k]);
    }
  }

  predicate OrbApart(d: AspectDef, e: AspectDef)
  {
    d.angle + d.orb < e.angle - e.orb || e.angle + e.orb < d.angle - d.orb
  }

  /** `180 - (visualDegree - ascDegree)`: the screen angle, in degrees, at which a longitude is
      drawn once the wheel is turned so that the Ascendant sits at 180 (the left horizon). */
  function ScreenAngle(visualDegree: real, ascDegree: real): (a: real)
    ensures visualDegree == ascDegree ==> a == 180.0
    ensures visualDegree == ascDegree + 180.0 ==> a == 0.0
  {
    180.0 - (visualDegree - ascDegree)
  }

  /** The screen angle determines the longitude back, and a longer longitude is drawn at a
      smaller screen angle: the zodiac runs the other way round the screen from the angle. */
  lemma ScreenAngleInverse(v: real, w: real, asc: real)
    ensures LongitudeFromScreen(ScreenAngle(v, asc), asc) == v
    ensures v < w ==> ScreenAngle(w, asc) < ScreenAngle(v, asc)
  {
  }

  function LongitudeFromScreen(a: real, asc: real): real
  {
    asc + 180.0 - a
  }

  // ---------------------------------------------------------------------------------------
  // The chart-line format `Name,Sign,D°MM'[,R]` that both parsers read

  /** The line `name,sign,token`, with `,R` appended when retrograde. */
  function LineOf(name: string, sign: string, token: string, retro: bool): string
  {
    name + "," + sign + "," + token + (if retro then ",R" else "")
  }

  /** The degree token `DD°MM'` of two digit runs. */
  function TokenOf(dd: string, mm: string): string
  {
    dd + "°" + mm + "'"
  }

  lemma LineSplits(name: string, sign: string, token: string, retro: bool)
    requires ',' !in name && ',' !in sign && ',' !in token
    ensures Split(LineOf(name, sign, token, retro), ',') == [name, sign, token] + (if retro then ["R"] else [])
  {
    var parts := [name, sign, token] + (if retro then ["R"] else []);
    assert Join(parts[2..], ',') == token + (if retro then ",R" else "");
    assert Join(parts[1..], ',') == sign + [','] + Join(parts[2..], ',');
    assert Join(parts, ',') == LineOf(name, sign, token, retro);
    SplitJoin(parts, ',');
  }

  // ---------------------------------------------------------------------------------------
  // House cusps

  /** One element of `houseCusps`. */
  datatype Cusp = Cusp(house: int, angle: real)

  /** The 12 cusps: `{ house: i + 1, angle: (asc + i * 30) % 360 }` (the p5 chart names the angle `absoluteDegree`). */
  function CuspsFrom(asc: real): seq<Cusp>
  {
    seq(12, i requires 0 <= i => Cusp(i + 1, Rem360(asc + 30.0 * i as real)))
  }

  /** Cusp `k` is house `k + 1`, lies `30k` degrees past the Ascendant modulo 360, and in
      [0, 360) whenever the Ascendant is non-negative; the first cusp is the Ascendant itself. */
  lemma CuspsShape(asc: real, k: nat)
    requires k < 12
    ensures |CuspsFrom(asc)| == 12 && CuspsFrom(asc)[k].house == k + 1
    ensures asc >= 0.0 ==> 0.0 <= CuspsFrom(asc)[k].angle < 360.0
    ensures 0.0 <= asc < 360.0 - 30.0 * k as real ==> CuspsFrom(asc)[k].angle == asc + 30.0 * k as real
  {
    var x := asc + 30.0 * k as real;
    if 0.0 <= x < 360.0 {
      Rem360OfSmall(x);
    }
  }

  // ---------------------------------------------------------------------------------------
  // Layout: `[...planets].sort((a, b) => key(a) - key(b))`, `findClusters`, the fan-out.

  predicate SortedBy<T>(s: seq<T>, key: T -> real)
  {
    forall i, j :: 0 <= i < j < |s| ==> key(s[i]) <= key(s[j])
  }

  /** Inserts `x` after every element whose key is not greater than its own. */
  function Insert<T>(x: T, s: seq<T>, key: T -> real): (r: seq<T>)
    requires SortedBy(s, key)
    ensures SortedBy(r, key)
    ensures multiset(r) == multiset(s) + multiset{x}
    ensures |r| == |s| + 1
  {
    if s == [] then [x]
    else if key(x) < key(s[0]) then
      ConsSorted(x, s, key);
      [x] + s
    else
      assert s == [s[0]] + s[1..];
      var t := Insert(x, s[1..], key);
      InsertAbove(x, s, t, key);
      ConsSorted(s[0], t, key);
      [s[0]] + t
  }

  /** An element whose key is below every key of a sorted sequence may go in front of it. */
  lemma ConsSorted<T>(a: T, t: seq<T>, key: T -> real)
    requires SortedBy(t, key)
    requires t != [] ==> key(a) <= key(t[0])
    ensures SortedBy([a] + t, key)
  {
  }

  /** Inserting `x` after the head of `s` leaves every key at least the head's. */
  lemma InsertAbove<T>(x: T, s: seq<T>, t: seq<T>, key: T -> real)
    requires s != [] && SortedBy(s, key) && key(s[0]) <= key(x)
    requires multiset(t) == multiset(s[1..]) + multiset{x}
    ensures forall i :: 0 <= i < |t| ==> key(s[0]) <= key(t[i])
  {
    forall i | 0 <= i < |t| ensures key(s[0]) <= key(t[i]) {
      assert t[i] in multiset(t);
      if t[i] != x {
        assert t[i] in multiset(s[1..]);
        var j :| 0 <= j < |s[1..]| && s[1..][j] == t[i];
        assert s[j + 1] == t[i];
      }
    }
  }

  /** The stable sort `Array.prototype.sort` performs with the comparator `key(a) - key(b)`:
      elements are inserted in input order, each after the equal keys before it. */
  function SortBy<T>(s: seq<T>, key: T -> real): (r: seq<T>)
    ensures SortedBy(r, key)
    ensures multiset(r) == multiset(s)
    ensures |r| == |s|
  {
    if s == [] then []
    else
      assert s == s[..|s| - 1] + [s[|s| - 1]];
      Insert(s[|s| - 1], SortBy(s[..|s| - 1], key), key)
  }

  /** The elements whose key is `v`, in their order in `s`. */
  function WithKey<T>(s: seq<T>, key: T -> real, v: real): seq<T>
  {
    if s == [] then []
    else (if key(s[0]) == v then [s[0]] else []) + WithKey(s[1..], key, v)
  }

  lemma {:induction false} WithKeyAppend<T>(a: seq<T>, b: seq<T>, key: T -> real, v: real)
    ensures WithKey(a + b, key, v) == WithKey(a, key, v) + WithKey(b, key, v)
    decreases |a|
  {
    if a == [] {
      assert a + b == b;
    } else {
      var ab := a + b;
      var head: seq<T> := if key(a[0]) == v then [a[0]] else [];
      assert ab[0] == a[0] && ab[1..] == a[1..] + b;
      WithKeyAppend(a[1..], b, key, v);
      assert WithKey(ab, key, v) == head + WithKey(a[1..] + b, key, v);
      assert WithKey(a, key, v) == head + WithKey(a[1..], key, v);
      AppendAssoc(head, WithKey(a[1..], key, v), WithKey(b, key, v));
    }
  }

  /** No element of `s` has a key as small as `v`'s, so none has key `v`. */
  lemma {:induction false} WithKeyAbove<T>(s: seq<T>, key: T -> real, v: real)
    requires forall i :: 0 <= i < |s| ==> v < key(s[i])
    ensures WithKey(s, key, v) == []
  {
    if s != [] {
      assert forall i :: 0 <= i < |s| - 1 ==> s[1..][i] == s[i + 1];
      WithKeyAbove(s[1..], key, v);
    }
  }

  /** `x` goes after every element with its own key. */
  lemma {:induction false} InsertStable<T>(x: T, s: seq<T>, key: T -> real, v: real)
    requires SortedBy(s, key)
    ensures WithKey(Insert(x, s, key), key, v) == WithKey(s, key, v) + (if key(x) == v then [x] else [])
  {
    if s == [] {
      assert Insert(x, s, key) == [x];
      assert [x][1..] == [];
    } else if key(x) < key(s[0]) {
      InsertStableFront(x, s, key, v);
    } else {
      InsertStable(x, s[1..], key, v);
      InsertStableAfter(x, s, key, v);
    }
  }

  /** `x` below the head goes in front, and no element of `s` shares its key. */
  lemma InsertStableFront<T>(x: T, s: seq<T>, key: T -> real, v: real)
    requires SortedBy(s, key) && s != [] && key(x) < key(s[0])
    ensures WithKey(Insert(x, s, key), key, v) == WithKey(s, key, v) + (if key(x) == v then [x] else [])
  {
    var tail: seq<T> := if key(x) == v then [x] else [];
    var xs := [x] + s;
    assert Insert(x, s, key) == xs;
    assert xs[0] == x && xs[1..] == s;
    assert WithKey(xs, key, v) == tail + WithKey(s, key, v);
    if key(x) == v {
      assert forall i :: 0 <= i < |s| ==> key(s[0]) <= key(s[i]);
      WithKeyAbove(s, key, key(x));
    }
  }

  /** `x` at or above the head goes into the tail, behind the head. */
  lemma InsertStableAfter<T>(x: T, s: seq<T>, key: T -> real, v: real)
    requires SortedBy(s, key) && s != [] && key(s[0]) <= key(x)
    requires WithKey(Insert(x, s[1..], key), key, v) == WithKey(s[1..], key, v) + (if key(x) == v then [x] else [])
    ensures WithKey(Insert(x, s, key), key, v) == WithKey(s, key, v) + (if key(x) == v then [x] else [])
  {
    var tail: seq<T> := if key(x) == v then [x] else [];
    var t := Insert(x, s[1..], key);
    var st := [s[0]] + t;
    var head: seq<T> := if key(s[0]) == v then [s[0]] else [];
    assert Insert(x, s, key) == st;
    assert st[0] == s[0] && st[1..] == t;
    assert WithKey(st, key, v) == head + WithKey(t, key, v);
    assert WithKey(s, key, v) == head + WithKey(s[1..], key, v);
    AppendAssoc(head, WithKey(s[1..], key, v), tail);
  }

  lemma AppendAssoc<T>(a: seq<T>, b: seq<T>, c: seq<T>)
    ensures a + (b + c) == (a + b) + c
  {
  }

  lemma WithKeySnoc<T>(s: seq<T>, x: T, key: T -> real, v: real)
    ensures WithKey(s + [x], key, v) == WithKey(s, key, v) + (if key(x) == v then [x] else [])
  {
    WithKeyAppend(s, [x], key, v);
    assert [x][1..] == [];
  }

  /** The sort is stable: the elements of any one key come out in their input order. */
  lemma {:induction false} SortByStable<T>(s: seq<T>, key: T -> real, v: real)
    ensures WithKey(SortBy(s, key), key, v) == WithKey(s, key, v)
  {
    if s != [] {
      var init, x := s[..|s| - 1], s[|s| - 1];
      var sorted := SortBy(init, key);
      assert SortBy(s, key) == Insert(x, sorted, key);
      SortByStable(init, key, v);
      InsertStable(x, sorted, key, v);
      WithKeySnoc(init, x, key, v);
      assert init + [x] == s;
    }
  }

  function Flatten<T>(css: seq<seq<T>>): seq<T>
  {
    if css == [] then [] else Flatten(css[..|css| - 1]) + css[|css| - 1]
  }

  lemma {:induction false} FlattenAppend<T>(a: seq<seq<T>>, b: seq<seq<T>>)
    ensures Flatten(a + b) == Flatten(a) + Flatten(b)
    decreases |b|
  {
    if b == [] {
      assert a + b == a;
    } else {
      var ab, b' := a + b, b[..|b| - 1];
      assert ab[..|ab| - 1] == a + b' && ab[|ab| - 1] == b[|b| - 1];
      assert Flatten(ab) == Flatten(a + b') + b[|b| - 1];
      FlattenAppend(a, b');
      AppendAssoc(Flatten(a), Flatten(b'), b[|b| - 1]);
    }
  }

  /** Member `i` of cluster `ci` sits at position `|Flatten(css[..ci])| + i` of the
      concatenation. */
  lemma FlattenAt<T>(css: seq<seq<T>>, ci: nat, i: nat)
    requires ci < |css| && i < |css[ci]|
    ensures |Flatten(css[..ci])| + i < |Flatten(css)|
    ensures Flatten(css)[|Flatten(css[..ci])| + i] == css[ci][i]
  {
    assert css == css[..ci] + ([css[ci]] + css[ci + 1..]);
    FlattenAppend(css[..ci], [css[ci]] + css[ci + 1..]);
    FlattenAppend([css[ci]], css[ci + 1..]);
    assert [css[ci]][..0] == [];
  }

  /** A repeated element occurs at least twice. */
  lemma CountTwo<T>(s: seq<T>, x: nat, y: nat)
    requires x < y < |s| && s[x] == s[y]
    ensures multiset(s)[s[x]] >= 2
  {
    assert s == s[..y] + [s[y]] + s[y + 1..];
    assert s[x] in s[..y];
  }

  /** An element of a list without repeats occurs at most once. */
  lemma {:induction false} CountOne<T>(s: seq<T>, v: T)
    requires forall x, y :: 0 <= x < y < |s| ==> s[x] != s[y]
    ensures multiset(s)[v] <= 1
  {
    if s != [] {
      var init := s[..|s| - 1];
      assert s == init + [s[|s| - 1]];
      CountOne(init, v);
      if v == s[|s| - 1] {
        assert v !in init;
      }
    }
  }

  /** Neighbours in one cluster are strictly closer than the threshold. */
  predicate LinkedWithin<T>(css: seq<seq<T>>, key: T -> real)
  {
    forall c, i :: 0 <= c < |css| && 0 < i < |css[c]| ==> Gap(css[c], i, key) < ClusterThreshold
  }

  /** The distance between element `i` of a run and its predecessor. */
  function Gap<T>(run: seq<T>, i: nat, key: T -> real): real
    requires 0 < i < |run|
  {
    Abs(key(run[i]) - key(run[i - 1]))
  }

  /** The last body of a cluster and the first of the next are at least the threshold apart. */
  predicate SeparatedBetween<T>(css: seq<seq<T>>, key: T -> real)
  {
    forall c :: 0 < c < |css| && |css[c - 1]| > 0 && |css[c]| > 0 ==>
      Abs(key(css[c][0]) - key(css[c - 1][|css[c - 1]| - 1])) >= ClusterThreshold
  }

  predicate NonEmptyClusters<T>(css: seq<seq<T>>)
  {
    forall c :: 0 <= c < |css| ==> |css[c]| > 0
  }

  /** What `findClusters` computes from the already sorted list, one element at a time: the
      next element joins the last cluster when it is closer than the threshold to its
      predecessor, and opens a new cluster otherwise. The result cuts the list into non-empty
      runs exactly at the gaps of at least the threshold. */
  function ClustersOf<T>(s: seq<T>, key: T -> real): (css: seq<seq<T>>)
    ensures |css| > 0 <==> |s| > 0
  {
    if s == [] then []
    else
      var init := s[..|s| - 1];
      var x := s[|s| - 1];
      var prev := ClustersOf(init, key);
      if init != [] && Abs(key(x) - key(init[|init| - 1])) < ClusterThreshold then
        prev[..|prev| - 1] + [prev[|prev| - 1] + [x]]
      else
        prev + [[x]]
  }

  /** The clusters, concatenated, give back the list; each is non-empty; neighbours within
      a cluster are closer than the threshold and neighbours across a cut are not; and the
      list's last element closes the last cluster. */
  lemma {:induction false} ClustersOfShape<T>(s: seq<T>, key: T -> real)
    ensures Flatten(ClustersOf(s, key)) == s
    ensures NonEmptyClusters(ClustersOf(s, key))
    ensures LinkedWithin(ClustersOf(s, key), key)
    ensures SeparatedBetween(ClustersOf(s, key), key)
    ensures |s| > 0 ==> ClustersOf(s, key)[|ClustersOf(s, key)| - 1][|ClustersOf(s, key)[|ClustersOf(s, key)| - 1]| - 1] == s[|s| - 1]
  {
    if s != [] {
      var init := s[..|s| - 1];
      var x := s[|s| - 1];
      assert s == init + [x];
      ClustersOfShape(init, key);
      var prev := ClustersOf(init, key);
      if init != [] && Abs(key(x) - key(init[|init| - 1])) < ClusterThreshold {
        JoinLast(prev, x, key, ClustersOf(s, key));
      } else {
        OpenCluster(prev, x, key, ClustersOf(s, key));
      }
    }
  }

  /** `findClusters`: sort a copy by degree, then cluster the sorted list. */
  method FindClusters<T>(planets: seq<T>, key: T -> real) returns (clusters: seq<seq<T>>)
    ensures clusters == ClustersOf(SortBy(planets, key), key)
  {
    if |planets| == 0 {
      return [];
    }
    var sorted := SortBy(planets, key);
    clusters := ClusterSorted(sorted, key);
  }

  /** The loop of `findClusters` over the sorted copy: extend the last cluster while the gap
      to the predecessor is under the threshold, open a new one otherwise. */
  method ClusterSorted<T>(sorted: seq<T>, key: T -> real) returns (clusters: seq<seq<T>>)
    requires |sorted| > 0
    ensures clusters == ClustersOf(sorted, key)
  {
    clusters := [[sorted[0]]];
    ClustersOfSnoc([], sorted[0], key);
    assert sorted[..1] == [] + [sorted[0]];
    var i := 1;
    while i < |sorted|
      invariant 1 <= i <= |sorted|
      invariant clusters == ClustersOf(sorted[..i], key)
    {
      ClustersOfSnoc(sorted[..i], sorted[i], key);
      assert sorted[..i + 1] == sorted[..i] + [sorted[i]];
      if Abs(key(sorted[i]) - key(sorted[i - 1])) < ClusterThreshold {
        clusters := clusters[..|clusters| - 1] + [clusters[|clusters| - 1] + [sorted[i]]];
      } else {
        clusters := clusters + [[sorted[i]]];
      }
      i := i + 1;
    }
    assert sorted[..|sorted|] == sorted;
  }

  /** One step of `ClustersOf`. */
  lemma ClustersOfSnoc<T>(s: seq<T>, x: T, key: T -> real)
    ensures s != [] && Abs(key(x) - key(s[|s| - 1])) < ClusterThreshold ==>
      ClustersOf(s + [x], key)
        == ClustersOf(s, key)[..|ClustersOf(s, key)| - 1] + [ClustersOf(s, key)[|ClustersOf(s, key)| - 1] + [x]]
    ensures !(s != [] && Abs(key(x) - key(s[|s| - 1])) < ClusterThreshold) ==>
      ClustersOf(s + [x], key) == ClustersOf(s, key) + [[x]]
  {
    assert (s + [x])[..|s|] == s;
  }

  lemma FlattenSnoc<T>(css: seq<seq<T>>, c: seq<T>)
    ensures Flatten(css + [c]) == Flatten(css) + c
  {
    assert (css + [c])[..|css|] == css;
  }

  /** Appending `x` to the last cluster keeps the clustering invariants when `x` is close to the
      last element. */
  lemma JoinLast<T>(prev: seq<seq<T>>, x: T, key: T -> real, css: seq<seq<T>>)
    requires |prev| > 0 && NonEmptyClusters(prev) && LinkedWithin(prev, key) && SeparatedBetween(prev, key)
    requires Abs(key(x) - key(prev[|prev| - 1][|prev[|prev| - 1]| - 1])) < ClusterThreshold
    requires css == prev[..|prev| - 1] + [prev[|prev| - 1] + [x]]
    ensures Flatten(css) == Flatten(prev) + [x]
    ensures NonEmptyClusters(css) && LinkedWithin(css, key) && SeparatedBetween(css, key)
    ensures |css| > 0 && |css[|css| - 1]| > 0 && css[|css| - 1][|css[|css| - 1]| - 1] == x
  {
    var front := prev[..|prev| - 1];
    var last := prev[|prev| - 1];
    assert prev == front + [last];
    FlattenSnoc(front, last);
    FlattenSnoc(front, last + [x]);
    assert NonEmptyClusters(css) by {
      forall c | 0 <= c < |css| ensures |css[c]| > 0 {
        if c < |front| { assert css[c] == prev[c]; }
      }
    }
    JoinLastLinked(prev, x, key, css);
    JoinLastSeparated(prev, x, key, css);
    assert css[|css| - 1] == last + [x];
  }

  lemma JoinLastLinked<T>(prev: seq<seq<T>>, x: T, key: T -> real, css: seq<seq<T>>)
    requires |prev| > 0 && |prev[|prev| - 1]| > 0 && LinkedWithin(prev, key)
    requires Abs(key(x) - key(prev[|prev| - 1][|prev[|prev| - 1]| - 1])) < ClusterThreshold
    requires css == prev[..|prev| - 1] + [prev[|prev| - 1] + [x]]
    ensures LinkedWithin(css, key)
  {
    var last := prev[|prev| - 1];
    forall c, i | 0 <= c < |css| && 0 < i < |css[c]|
      ensures Gap(css[c], i, key) < ClusterThreshold
    {
      if c < |css| - 1 {
        assert css[c] == prev[c];
      } else {
        assert css[c] == last + [x];
        if i < |last| {
          assert css[c][i] == last[i] && css[c][i - 1] == last[i - 1];
          assert Gap(last, i, key) < ClusterThreshold;
        } else {
          assert css[c][i] == x && css[c][i - 1] == last[|last| - 1];
        }
      }
    }
  }

  lemma JoinLastSeparated<T>(prev: seq<seq<T>>, x: T, key: T -> real, css: seq<seq<T>>)
    requires |prev| > 0 && |prev[|prev| - 1]| > 0 && SeparatedBetween(prev, key)
    requires css == prev[..|prev| - 1] + [prev[|prev| - 1] + [x]]
    ensures SeparatedBetween(css, key)
  {
    forall c | 0 < c < |css| && |css[c - 1]| > 0 && |css[c]| > 0
      ensures Abs(key(css[c][0]) - key(css[c - 1][|css[c - 1]| - 1])) >= ClusterThreshold
    {
      assert css[c - 1] == prev[c - 1];
      assert css[c][0] == prev[c][0];
    }
  }

  /** Opening a new cluster with `x` keeps the clustering invariants when `x` is not close to
      the last element. */
  lemma OpenCluster<T>(prev: seq<seq<T>>, x: T, key: T -> real, css: seq<seq<T>>)
    requires NonEmptyClusters(prev) && LinkedWithin(prev, key) && SeparatedBetween(prev, key)
    requires |prev| > 0 ==> Abs(key(x) - key(prev[|prev| - 1][|prev[|prev| - 1]| - 1])) >= ClusterThreshold
    requires css == prev + [[x]]
    ensures Flatten(css) == Flatten(prev) + [x]
    ensures NonEmptyClusters(css) && LinkedWithin(css, key) && SeparatedBetween(css, key)
    ensures |css| > 0 && |css[|css| - 1]| > 0 && css[|css| - 1][|css[|css| - 1]| - 1] == x
  {
    FlattenSnoc(prev, [x]);
    assert NonEmptyClusters(css) by {
      forall c | 0 <= c < |css| ensures |css[c]| > 0 {
        if c < |prev| { assert css[c] == prev[c]; }
      }
    }
    OpenClusterLinked(prev, x, key);
    OpenClusterSeparated(prev, x, key);
    assert css[|css| - 1] == [x];
  }

  lemma OpenClusterLinked<T>(prev: seq<seq<T>>, x: T, key: T -> real)
    requires LinkedWithin(prev, key)
    ensures LinkedWithin(prev + [[x]], key)
  {
    var css := prev + [[x]];
    forall c, i | 0 <= c < |css| && 0 < i < |css[c]|
      ensures Gap(css[c], i, key) < ClusterThreshold
    {
      if c < |prev| {
        assert css[c] == prev[c];
      }
    }
  }

  lemma OpenClusterSeparated<T>(prev: seq<seq<T>>, x: T, key: T -> real)
    requires SeparatedBetween(prev, key)
    requires |prev| > 0 && |prev[|prev| - 1]| > 0 ==>
      Abs(key(x) - key(prev[|prev| - 1][|prev[|prev| - 1]| - 1])) >= ClusterThreshold
    ensures SeparatedBetween(prev + [[x]], key)
  {
    var css := prev + [[x]];
    forall c | 0 < c < |css| && |css[c - 1]| > 0 && |css[c]| > 0
      ensures Abs(key(css[c][0]) - key(css[c - 1][|css[c - 1]| - 1])) >= ClusterThreshold
    {
      assert css[c - 1] == prev[c - 1];
      if c < |prev| {
        assert css[c] == prev[c];
      } else {
        assert css[c][0] == x;
      }
    }
  }

  function Sum(xs: seq<real>): real
  {
    if xs == [] then 0.0 else Sum(xs[..|xs| - 1]) + xs[|xs| - 1]
  }

  /** `startAngle + i * (totalArc / (clusterSize - 1))` with `totalArc = (clusterSize - 1) * 9`
      and `startAngle = avgAngle - totalArc / 2`: the visual degree of member `i` of a cluster of
      `n > 1` bodies whose mean degree is `avg`. */
  function FanDegree(n: nat, avg: real, i: nat): real
    requires n > 1
  {
    var totalArc := (n - 1) as real * 9.0;
    var startAngle := avg - totalArc / 2.0;
    startAngle + i as real * (totalArc / (n - 1) as real)
  }

  /** The fan is an evenly spaced run, `FanStep` apart, that starts `(n-1)*9/2` below the mean
      and is mirror-symmetric about it. */
  lemma FanDegreeSpacing(n: nat, avg: real, i: nat)
    requires n > 1
    ensures FanDegree(n, avg, i) == avg - (n - 1) as real * FanStep / 2.0 + FanStep * i as real
    ensures i + 1 < n ==> FanDegree(n, avg, i + 1) - FanDegree(n, avg, i) == FanStep
    ensures i < n ==> FanDegree(n, avg, i) + FanDegree(n, avg, n - 1 - i) == 2.0 * avg
  {
    var m := (n - 1) as real;
    assert m > 0.0;
    assert (m * 9.0) / m == 9.0;
    if i + 1 < n {
      assert (m * 9.0) / m == 9.0;
    }
  }

  /** The fan of a cluster keeps its mean: the visual degrees average to `avg`. */
  lemma FanDegreeMean(n: nat, avg: real)
    requires n > 1
    ensures Sum(seq(n, i requires 0 <= i => FanDegree(n, avg, i))) == n as real * avg
  {
    var start := avg - (n - 1) as real * FanStep / 2.0;
    forall i | 0 <= i < n ensures FanDegree(n, avg, i) == start + FanStep * i as real {
      FanDegreeSpacing(n, avg, i);
    }
    assert seq(n, i requires 0 <= i => FanDegree(n, avg, i)) == seq(n, i requires 0 <= i => start + FanStep * i as real);
    ArithmeticSum(start, n);
    assert n as real * start + 4.5 * n as real * (n - 1) as real == n as real * avg;
  }

  lemma {:induction false} ArithmeticSum(a: real, k: nat)
    ensures Sum(seq(k, i requires 0 <= i => a + 9.0 * i as real)) == k as real * a + 4.5 * k as real * (k - 1) as real
  {
    if k > 0 {
      var s := seq(k, i requires 0 <= i => a + 9.0 * i as real);
      assert s[..k - 1] == seq(k - 1, i requires 0 <= i => a + 9.0 * i as real);
      ArithmeticSum(a, k - 1);
      assert k as real * a == (k - 1) as real * a + a;
      assert 4.5 * k as real * (k - 1) as real == 4.5 * (k - 1) as real * (k - 2) as real + 9.0 * (k - 1) as real;
    }
  }

  /** The callback's own arithmetic, `startAngle + i * (totalArc / (clusterSize - 1))`, is the
      fan degree. */
  lemma FanValue(n: nat, avg: real, i: nat, totalArc: real, start: real, v: real)
    requires n > 1 && totalArc == (n - 1) as real * 9.0 && start == avg - totalArc / 2.0
    requires v == start + i as real * (totalArc / (n - 1) as real)
    ensures v == FanDegree(n, avg, i)
  {
  }
}
