/**
 * The arithmetic of the antenna-base recipe: the parameter table lookup of
 * `getBuildParams`, the layout values the recipe derives from the build
 * parameters, the lathe profile of the coil former, and the percentages the
 * progress-reporting build hands to its listener. The three.js primitives
 * and the sixteen CSG steps between the progress reports are not modelled.
 */
module ModelBuilder {
  import opened Wrappers

  /** The two nut sizes of the nut table. */
  datatype NutType = M10 | M8

  datatype NutSpec = NutSpec(acrossFlats: real, thickness: real, bore: real)

  /** `NUT_SPECS`, in millimetres. */
  function NutSpecOf(t: NutType): NutSpec
  {
    match t
    case M10 => NutSpec(17.0, 8.0, 10.5)
    case M8 => NutSpec(13.0, 6.5, 8.5)
  }

  /** The four connector kinds of the connector table. */
  datatype ConnectorKind = Bnc | Sma | Banana | Binding

  /** A connector's spec; the panel connectors carry no flat dimensions. */
  datatype ConnectorSpec = ConnectorSpec(holeDiameter: real, flatWidth: Option<real>, flatDepth: Option<real>)

  /** `CONNECTOR_SPECS`, in millimetres. */
  function ConnectorSpecOf(k: ConnectorKind): ConnectorSpec
  {
    match k
    case Bnc => ConnectorSpec(9.5, Some(16.0), Some(3.0))
    case Sma => ConnectorSpec(6.5, Some(12.0), Some(2.0))
    case Banana => ConnectorSpec(4.2, None, None)
    case Binding => ConnectorSpec(8.0, None, None)
  }

  /** The user's design parameters (lengths in millimetres, frequency in kHz, whip length in metres). */
  datatype AntennaParams = AntennaParams(
    frequency: real, whipLength: real,
    coilDiameter: real, coilHeight: real, showGrooves: bool, groovePitch: real,
    baseDiameter: real, baseHeight: real,
    radioConnector: ConnectorKind, counterpoiseConnector: ConnectorKind,
    threadType: NutType, postHeight: real, wireHoleDiameter: real)

  /** The dimensions the recipe builds from. */
  datatype BuildParams = BuildParams(
    coilDiameter: real, coilHeight: real, showGrooves: bool, groovePitch: real,
    wireHoleDiameter: real, baseDiameter: real, baseHeight: real, postHeight: real,
    nutAcrossFlats: real, nutThickness: real, nutBore: real,
    radioHoleDiameter: real, radioFlatWidth: real, radioFlatDepth: real,
    counterpoiseHoleDiameter: real)

  /** `'key' in spec ? spec.key : fallback`. */
  function OrDefault(v: Option<real>, fallback: real): real
  {
    if v.Some? then v.value else fallback
  }

  /**
   * `getBuildParams`: the design fields are copied, the nut pocket is the
   * nut plus half a millimetre of clearance on both dimensions, the bore
   * and the hole diameters come from the tables, and a radio connector
   * without flat dimensions gets a 14 by 2.5 flat.
   */
  function GetBuildParams(params: AntennaParams): (r: BuildParams)
    ensures r.coilDiameter == params.coilDiameter && r.coilHeight == params.coilHeight
    ensures r.showGrooves == params.showGrooves && r.groovePitch == params.groovePitch
    ensures r.wireHoleDiameter == params.wireHoleDiameter && r.postHeight == params.postHeight
    ensures r.baseDiameter == params.baseDiameter && r.baseHeight == params.baseHeight
  {
    var nut := NutSpecOf(params.threadType);
    var radio := ConnectorSpecOf(params.radioConnector);
    var counterpoise := ConnectorSpecOf(params.counterpoiseConnector);
    BuildParams(
      params.coilDiameter, params.coilHeight, params.showGrooves, params.groovePitch,
      params.wireHoleDiameter, params.baseDiameter, params.baseHeight, params.postHeight,
      nut.acrossFlats + 0.5, nut.thickness + 0.5, nut.bore,
      radio.holeDiameter, OrDefault(radio.flatWidth, 14.0), OrDefault(radio.flatDepth, 2.5),
      counterpoise.holeDiameter)
  }

  /** The nut fields for each thread: 17.5, 8.5 and 10.5 for M10; 13.5, 7 and 8.5 for M8. */
  lemma NutFields(params: AntennaParams)
    ensures var r := GetBuildParams(params);
      (params.threadType == M10 <==> r.nutAcrossFlats == 17.5)
      && (params.threadType == M10 ==> r.nutThickness == 8.5 && r.nutBore == 10.5)
      && (params.threadType == M8 ==> r.nutAcrossFlats == 13.5 && r.nutThickness == 7.0 && r.nutBore == 8.5)
      && r.nutAcrossFlats == NutSpecOf(params.threadType).acrossFlats + 0.5
      && r.nutThickness == NutSpecOf(params.threadType).thickness + 0.5
  {
  }

  /**
   * The radio connector fields: BNC gives a 9.5 hole and a 16 by 3 flat,
   * SMA a 6.5 hole and a 12 by 2 flat; the connectors without flat
   * dimensions get the 14 by 2.5 default.
   */
  lemma RadioFields(params: AntennaParams)
    ensures var r := GetBuildParams(params);
      r.radioHoleDiameter == ConnectorSpecOf(params.radioConnector).holeDiameter
      && (params.radioConnector == Bnc ==> r.radioHoleDiameter == 9.5 && r.radioFlatWidth == 16.0 && r.radioFlatDepth == 3.0)
      && (params.radioConnector == Sma ==> r.radioHoleDiameter == 6.5 && r.radioFlatWidth == 12.0 && r.radioFlatDepth == 2.0)
      && (ConnectorSpecOf(params.radioConnector).flatWidth.None? <==> params.radioConnector in {Banana, Binding})
      && (params.radioConnector in {Banana, Binding} ==> r.radioFlatWidth == 14.0 && r.radioFlatDepth == 2.5)
  {
  }

  /** The counterpoise hole is 4.2 for a banana socket and 8 for a binding post. */
  lemma CounterpoiseFields(params: AntennaParams)
    ensures var r := GetBuildParams(params);
      (params.counterpoiseConnector == Banana ==> r.counterpoiseHoleDiameter == 4.2)
      && (params.counterpoiseConnector == Binding ==> r.counterpoiseHoleDiameter == 8.0)
  {
  }

  /** The RF fields play no part: designs that differ only in frequency and whip length build alike. */
  lemma RfIrrelevant(params: AntennaParams, frequency: real, whipLength: real)
    ensures GetBuildParams(params.(frequency := frequency, whipLength := whipLength)) == GetBuildParams(params)
  {
  }

  // Layout

  datatype Layout = Layout(
    baseRadius: real, coilRadius: real, postRadius: real,
    coilBottom: real, coilTop: real, postTop: real,
    wireRadius: real, wireTopY: real, wireBotY: real)

  /** The radii and heights both recipe functions derive before the first step. */
  function LayoutOf(params: BuildParams): Layout
  {
    var coilBottom := params.baseHeight;
    var coilTop := coilBottom + params.coilHeight;
    Layout(
      params.baseDiameter / 2.0, params.coilDiameter / 2.0, params.nutAcrossFlats / 2.0 + 4.0,
      coilBottom, coilTop, coilTop + params.postHeight,
      params.wireHoleDiameter / 2.0, coilTop - 5.0, coilBottom + 5.0)
  }

  /**
   * The coil sits on the base and the post on the coil; the post is 4 mm
   * wider in radius than the nut pocket; the wire holes are 5 mm inside
   * the coil's ends.
   */
  lemma LayoutStacking(params: BuildParams)
    ensures var l := LayoutOf(params);
      l.coilBottom == params.baseHeight
      && l.coilTop - l.coilBottom == params.coilHeight
      && l.postTop - l.coilTop == params.postHeight
      && l.postTop == params.baseHeight + params.coilHeight + params.postHeight
      && l.postRadius - params.nutAcrossFlats / 2.0 == 4.0
      && l.wireTopY == l.coilTop - 5.0 && l.wireBotY == l.coilBottom + 5.0
      && l.wireTopY - l.wireBotY == params.coilHeight - 10.0
      && (params.coilHeight >= 0.0 && params.postHeight >= 0.0 ==> l.coilBottom <= l.coilTop <= l.postTop)
      && (params.coilHeight >= 10.0 ==> l.coilBottom <= l.wireBotY <= l.wireTopY <= l.coilTop)
  {
  }

  /** With the nut table, the post radius is 12.75 for M10 and 10.75 for M8. */
  lemma PostRadius(params: AntennaParams)
    ensures var l := LayoutOf(GetBuildParams(params));
      (params.threadType == M10 ==> l.postRadius == 12.75) && (params.threadType == M8 ==> l.postRadius == 10.75)
  {
  }

  // Coil profile

  /** A point (radius, height) of the lathe profile. */
  datatype Point2 = Point2(x: real, y: real)

  const GROOVE_DEPTH: real := 0.8

  /**
   * How often `for (i = 0; i < Math.floor(h / p); i++)` runs: never when the
   * floor is negative, and never when p is 0 and h is not positive (h / p
   * is then NaN or minus infinity). For p = 0 and h > 0 the bound is plus
   * infinity and the source never stops, so that case is excluded.
   */
  function NumGrooves(h: real, p: real): (n: nat)
    requires !(p == 0.0 && h > 0.0)
    ensures p > 0.0 && h >= 0.0 ==> n == (h / p).Floor
    ensures p > 0.0 && h >= 0.0 ==> (n as real) * p <= h < (n as real + 1.0) * p
  {
    if p == 0.0 then 0
    else
      var f := (h / p).Floor;
      FloorTimes(h, p);
      if f < 0 then 0 else f
  }

  /** For positive p, floor(h / p) grooves fit in h and one more does not; for h >= 0 the floor is not negative. */
  lemma FloorTimes(h: real, p: real)
    requires p != 0.0
    ensures p > 0.0 ==> ((h / p).Floor as real) * p <= h < ((h / p).Floor as real + 1.0) * p
    ensures p > 0.0 && h >= 0.0 ==> (h / p).Floor >= 0
  {
    if p > 0.0 {
      var q := h / p;
      var f := q.Floor as real;
      assert q * p == h;
      MulMonotone(f, q, p);
      var d := f + 1.0 - q;
      assert d > 0.0;
      MulPositive(d, p);
      assert (f + 1.0) * p - h == d * p;
      assert f * p <= h;
      assert h < (f + 1.0) * p;
      if h >= 0.0 {
        assert q >= 0.0;
      }
    }
  }

  lemma MulPositive(a: real, b: real)
    requires a > 0.0 && b > 0.0
    ensures a * b > 0.0
  {
  }

  lemma MulMonotone(a: real, b: real, p: real)
    requires a <= b && p >= 0.0
    ensures a * p <= b * p
  {
    assert b * p - a * p == (b - a) * p;
  }

  /** Groove i: the outer edge at i p, the groove floor from 0.3 p to 0.7 p, the outer edge again at (i + 1) p. */
  function GroovePoints(r: real, p: real, i: nat): seq<Point2>
  {
    var y := (i as real) * p;
    [Point2(r, y), Point2(r - GROOVE_DEPTH, y + p * 0.3), Point2(r - GROOVE_DEPTH, y + p * 0.7), Point2(r, y + p)]
  }

  /** The points of the first n grooves. */
  function Grooves(r: real, p: real, n: nat): seq<Point2>
  {
    if n == 0 then [] else Grooves(r, p, n - 1) + GroovePoints(r, p, n - 1)
  }

  /** The lathe profile of the coil former, from the axis at the bottom to the axis at the top. */
  function Profile(r: real, h: real, showGrooves: bool, p: real): seq<Point2>
    requires showGrooves ==> !(p == 0.0 && h > 0.0)
  {
    [Point2(0.01, 0.0)]
    + (if showGrooves then Grooves(r, p, NumGrooves(h, p)) + [Point2(r, h)] else [Point2(r, 0.0), Point2(r, h)])
    + [Point2(0.01, h)]
  }

  /** The `coilPoints` loop of the recipe. */
  method CoilProfile(params: BuildParams) returns (coilPoints: seq<Point2>)
    requires params.showGrooves ==> !(params.groovePitch == 0.0 && params.coilHeight > 0.0)
    ensures coilPoints == Profile(params.coilDiameter / 2.0, params.coilHeight, params.showGrooves, params.groovePitch)
  {
    var coilRadius := params.coilDiameter / 2.0;
    coilPoints := [Point2(0.01, 0.0)];
    if params.showGrooves {
      var numGrooves := NumGrooves(params.coilHeight, params.groovePitch);
      var grooves := GrooveLoop(coilRadius, params.groovePitch, numGrooves);
      coilPoints := coilPoints + grooves + [Point2(coilRadius, params.coilHeight)];
    } else {
      coilPoints := coilPoints + [Point2(coilRadius, 0.0)];
      coilPoints := coilPoints + [Point2(coilRadius, params.coilHeight)];
    }
    coilPoints := coilPoints + [Point2(0.01, params.coilHeight)];
  }

  /** The groove loop: four points per groove. */
  method GrooveLoop(coilRadius: real, groovePitch: real, numGrooves: nat) returns (points: seq<Point2>)
    ensures points == Grooves(coilRadius, groovePitch, numGrooves)
  {
    points := [];
    for i := 0 to numGrooves
      invariant points == Grooves(coilRadius, groovePitch, i)
    {
      var y := (i as real) * groovePitch;
      points := points + [Point2(coilRadius, y)];
      points := points + [Point2(coilRadius - GROOVE_DEPTH, y + groovePitch * 0.3)];
      points := points + [Point2(coilRadius - GROOVE_DEPTH, y + groovePitch * 0.7)];
      points := points + [Point2(coilRadius, y + groovePitch)];
    }
  }

  /** n grooves give 4 n points, and groove i's points are at 4 i to 4 i + 3. */
  lemma {:induction false} GroovesAt(r: real, p: real, n: nat, i: nat)
    requires i < n
    ensures |Grooves(r, p, n)| == 4 * n
    ensures Grooves(r, p, n)[4 * i..4 * i + 4] == GroovePoints(r, p, i)
  {
    GroovesLength(r, p, n - 1);
    if i < n - 1 {
      GroovesAt(r, p, n - 1, i);
      assert Grooves(r, p, n)[4 * i..4 * i + 4] == Grooves(r, p, n - 1)[4 * i..4 * i + 4];
    } else {
      assert Grooves(r, p, n)[4 * i..4 * i + 4] == Grooves(r, p, n)[4 * (n - 1)..];
    }
  }

  lemma {:induction false} GroovesLength(r: real, p: real, n: nat)
    ensures |Grooves(r, p, n)| == 4 * n
  {
    if n > 0 {
      GroovesLength(r, p, n - 1);
    }
  }

  /**
   * Without grooves the profile is exactly the four corners of the coil's
   * half-section; with grooves it has 4 floor(h / p) + 3 points. Either way
   * it starts on the axis at the bottom and ends on the axis at the top.
   */
  lemma ProfileShape(r: real, h: real, showGrooves: bool, p: real)
    requires showGrooves ==> !(p == 0.0 && h > 0.0)
    ensures var pts := Profile(r, h, showGrooves, p);
      (!showGrooves ==> pts == [Point2(0.01, 0.0), Point2(r, 0.0), Point2(r, h), Point2(0.01, h)])
      && (showGrooves ==> |pts| == 4 * NumGrooves(h, p) + 3)
      && |pts| >= 3 && pts[0] == Point2(0.01, 0.0) && pts[|pts| - 1] == Point2(0.01, h)
  {
    if showGrooves {
      GroovesLength(r, p, NumGrooves(h, p));
    }
  }

  /** Groove i of the profile: its outer points at radius r, its floor points at r - 0.8. */
  lemma ProfileGroove(r: real, h: real, p: real, i: nat)
    requires !(p == 0.0 && h > 0.0) && i < NumGrooves(h, p)
    ensures var pts := Profile(r, h, true, p);
      |pts| == 4 * NumGrooves(h, p) + 3
      && pts[4 * i + 1].x == r && pts[4 * i + 4].x == r
      && pts[4 * i + 2].x == r - 0.8 && pts[4 * i + 3].x == r - 0.8
      && pts[4 * i + 1].y == (i as real) * p && pts[4 * i + 4].y == (i as real) * p + p
  {
    var n := NumGrooves(h, p);
    var g := Grooves(r, p, n);
    GroovesAt(r, p, n, i);
    Inner(r, h, g, 4 * i);
    assert Profile(r, h, true, p) == [Point2(0.01, 0.0)] + g + [Point2(r, h), Point2(0.01, h)];
  }

  /** Inside the bracketed profile, the groove points sit one place later than in the grooves alone. */
  lemma Inner(r: real, h: real, g: seq<Point2>, k: nat)
    requires k + 4 <= |g|
    ensures var pts := [Point2(0.01, 0.0)] + g + [Point2(r, h), Point2(0.01, h)];
      |pts| == |g| + 3 && pts[k + 1..k + 5] == g[k..k + 4]
  {
  }

  /** The heights of a sequence of points never decrease. */
  ghost predicate Ascending(s: seq<Point2>)
  {
    forall k :: 0 <= k < |s| - 1 ==> s[k].y <= s[k + 1].y
  }

  /** All heights of a sequence of points lie in [lo, hi]. */
  ghost predicate Within(s: seq<Point2>, lo: real, hi: real)
  {
    forall k :: 0 <= k < |s| ==> lo <= s[k].y <= hi
  }

  lemma AscendingAppend(a: seq<Point2>, b: seq<Point2>)
    requires Ascending(a) && Ascending(b)
    requires |a| > 0 && |b| > 0 ==> a[|a| - 1].y <= b[0].y
    ensures Ascending(a + b)
  {
    var s := a + b;
    forall k | 0 <= k < |s| - 1
      ensures s[k].y <= s[k + 1].y
    {
      if k + 1 < |a| {
        assert s[k] == a[k] && s[k + 1] == a[k + 1];
      } else if k + 1 == |a| {
        assert s[k] == a[|a| - 1] && s[k + 1] == b[0];
      } else {
        assert s[k] == b[k - |a|] && s[k + 1] == b[k - |a| + 1];
      }
    }
  }

  lemma WithinAppend(a: seq<Point2>, b: seq<Point2>, lo: real, hi: real)
    requires Within(a, lo, hi) && Within(b, lo, hi)
    ensures Within(a + b, lo, hi)
  {
    var s := a + b;
    forall k | 0 <= k < |s|
      ensures lo <= s[k].y <= hi
    {
      if k < |a| {
        assert s[k] == a[k];
      } else {
        assert s[k] == b[k - |a|];
      }
    }
  }

  /**
   * For p >= 0 the first n grooves climb from 0 to n p without ever going
   * down, and every height lies in [0, n p].
   */
  lemma {:induction false} GroovesAscending(r: real, p: real, n: nat)
    requires p >= 0.0
    ensures |Grooves(r, p, n)| == 4 * n
    ensures Ascending(Grooves(r, p, n)) && Within(Grooves(r, p, n), 0.0, (n as real) * p)
    ensures n > 0 ==> Grooves(r, p, n)[0].y == 0.0 && Grooves(r, p, n)[4 * n - 1].y == (n as real) * p
  {
    if n > 0 {
      var i := n - 1;
      var prefix, g := Grooves(r, p, i), GroovePoints(r, p, i);
      GroovesAscending(r, p, i);
      GrooveAscending(r, p, i, n);
      assert (i as real) * p + p == (n as real) * p;
      MulMonotone(i as real, n as real, p);
      AscendingAppend(prefix, g);
      WidenWithin(prefix, 0.0, (i as real) * p, (n as real) * p);
      WithinAppend(prefix, g, 0.0, (n as real) * p);
      assert Grooves(r, p, n) == prefix + g;
      if i > 0 {
        assert Grooves(r, p, n)[0] == prefix[0];
      }
    }
  }

  /** Groove i climbs from i p to (i + 1) p, which is at most n p when i < n. */
  lemma GrooveAscending(r: real, p: real, i: nat, n: nat)
    requires p >= 0.0 && i < n
    ensures Ascending(GroovePoints(r, p, i)) && Within(GroovePoints(r, p, i), 0.0, (n as real) * p)
    ensures GroovePoints(r, p, i)[0].y == (i as real) * p && GroovePoints(r, p, i)[3].y == (i as real) * p + p
  {
    var y := (i as real) * p;
    MulMonotone(0.0, i as real, p);
    MulMonotone((i + 1) as real, n as real, p);
    assert ((i + 1) as real) * p == y + p;
    GrooveOrder(r, p, i, (n as real) * p);
  }

  /** The four points of groove i climb from i p to i p + p and stay within [0, top] when i p + p is at most top. */
  lemma GrooveOrder(r: real, p: real, i: nat, top: real)
    requires 0.0 <= (i as real) * p && 0.0 <= p && (i as real) * p + p <= top
    ensures Ascending(GroovePoints(r, p, i)) && Within(GroovePoints(r, p, i), 0.0, top)
  {
    var g := GroovePoints(r, p, i);
    assert g[0].y <= g[1].y <= g[2].y <= g[3].y;
  }

  lemma WidenWithin(s: seq<Point2>, lo: real, hi: real, hi2: real)
    requires Within(s, lo, hi) && hi <= hi2
    ensures Within(s, lo, hi2)
  {
  }

  /**
   * With a positive pitch and a non-negative height, the grooved profile's
   * heights never decrease and stay within [0, h].
   */
  lemma ProfileAscending(r: real, h: real, p: real)
    requires p > 0.0 && h >= 0.0
    ensures Ascending(Profile(r, h, true, p)) && Within(Profile(r, h, true, p), 0.0, h)
  {
    var g := Grooves(r, p, NumGrooves(h, p));
    GroovesWithin(r, h, p);
    Bracketed(r, h, g);
    assert Profile(r, h, true, p) == [Point2(0.01, 0.0)] + g + [Point2(r, h), Point2(0.01, h)];
  }

  /** The grooves climb and stay within [0, h]. */
  lemma GroovesWithin(r: real, h: real, p: real)
    requires p > 0.0 && h >= 0.0
    ensures Ascending(Grooves(r, p, NumGrooves(h, p))) && Within(Grooves(r, p, NumGrooves(h, p)), 0.0, h)
  {
    var n := NumGrooves(h, p);
    GroovesAscending(r, p, n);
    WidenWithin(Grooves(r, p, n), 0.0, (n as real) * p, h);
  }

  /** Climbing heights within [0, h], led by the bottom axis point and followed by the top corner and the top axis point. */
  lemma Bracketed(r: real, h: real, g: seq<Point2>)
    requires h >= 0.0 && Ascending(g) && Within(g, 0.0, h)
    ensures Ascending([Point2(0.01, 0.0)] + g + [Point2(r, h), Point2(0.01, h)])
    ensures Within([Point2(0.01, 0.0)] + g + [Point2(r, h), Point2(0.01, h)], 0.0, h)
  {
    var start, ends := [Point2(0.01, 0.0)], [Point2(r, h), Point2(0.01, h)];
    assert Ascending(ends) && Within(ends, 0.0, h);
    AscendingAppend(start, g);
    WithinAppend(start, g, 0.0, h);
    StartGroovesEnd(h, start + g);
    AscendingAppend(start + g, ends);
    WithinAppend(start + g, ends, 0.0, h);
  }

  /** The last height of a sequence within [0, h] is at most h. */
  lemma StartGroovesEnd(h: real, s: seq<Point2>)
    requires |s| > 0 && Within(s, 0.0, h)
    ensures s[|s| - 1].y <= h
  {
  }

  // Progress

  const TOTAL_STEPS: nat := 16

  /** `Math.round`: the nearest integer, halves rounded up. */
  function Round(x: real): int
  {
    (x + 0.5).Floor
  }

  /** The percentage reported after step k of 16. */
  function Percent(step: int): int
  {
    Round(step as real / 16.0 * 100.0)
  }

  /** The progress reporter of the incremental build: a step counter and what the listener has been given. */
  class ProgressReporter {
    var currentStep: int
    var reported: seq<int>
    const hasListener: bool

    constructor(hasListener: bool)
      ensures this.hasListener == hasListener && currentStep == 0 && reported == []
    {
      this.hasListener := hasListener;
      currentStep := 0;
      reported := [];
    }

    /** `reportProgress`: count the step and, when there is a listener, pass it the rounded percentage. */
    method Report()
      modifies this
      ensures currentStep == old(currentStep) + 1
      ensures reported == old(reported) + (if hasListener then [Percent(currentStep)] else [])
    {
      currentStep := currentStep + 1;
      if hasListener {
        reported := reported + [Percent(currentStep)];
      }
    }
  }

  /** The values the listener receives over a complete build. */
  function ProgressValues(): (r: seq<int>)
    ensures |r| == TOTAL_STEPS
  {
    seq(TOTAL_STEPS, k requires 0 <= k => Percent(k + 1))
  }

  /**
   * The sixteen `reportProgress` calls of the incremental build, one after
   * each recipe step. The listener receives the sixteen percentages, and
   * nothing when there is none.
   */
  method BuildProgress(hasListener: bool) returns (values: seq<int>)
    ensures values == if hasListener then ProgressValues() else []
  {
    var reporter := new ProgressReporter(hasListener);
    for step := 0 to TOTAL_STEPS
      invariant reporter.currentStep == step
      invariant reporter.reported == if hasListener then ProgressValues()[..step] else []
    {
      reporter.Report();
      if hasListener {
        assert ProgressValues()[..step + 1] == ProgressValues()[..step] + [Percent(step + 1)];
      }
    }
    values := reporter.reported;
    if hasListener {
      assert ProgressValues()[..TOTAL_STEPS] == ProgressValues();
    }
  }

  /**
   * The sixteen percentages start at 6, end at 100, never decrease and lie
   * in [0, 100]: value k is round(100 (k + 1) / 16).
   */
  lemma ProgressShape()
    ensures |ProgressValues()| == 16
    ensures ProgressValues()[0] == 6 && ProgressValues()[1] == 13 && ProgressValues()[15] == 100
    ensures forall k :: 0 <= k < 15 ==> ProgressValues()[k] <= ProgressValues()[k + 1]
    ensures forall k :: 0 <= k < 16 ==> 0 <= ProgressValues()[k] <= 100
  {
    var v := ProgressValues();
    forall k | 0 <= k < 15
      ensures v[k] <= v[k + 1]
    {
      PercentMonotone(k + 1, k + 2);
    }
    forall k | 0 <= k < 16
      ensures 0 <= v[k] <= 100
    {
      PercentMonotone(0, k + 1);
      PercentMonotone(k + 1, 16);
    }
  }

  lemma PercentMonotone(a: int, b: int)
    requires a <= b
    ensures Percent(a) <= Percent(b)
    ensures Percent(0) == 0 && Percent(16) == 100
  {
    var x, y := a as real / 16.0 * 100.0 + 0.5, b as real / 16.0 * 100.0 + 0.5;
    assert x <= y;
  }
}
