/** Model of the visibility-distance logic of fov_checker.py: the three
    tilt regimes of the theoretical floor distances, their refinement by
    the height of a person, and the colour shown for each distance.

    Angles are in degrees, camera and person heights in centimetres and
    distances in metres, as in the source. `math.tan` and Python's
    `round(x, 1)` are not modelled: they are passed in as a `MathLib`, and
    the few facts about them that some lemmas need are stated as ghost
    predicates on it. */
module FovChecker {

  /** Python's `math.pi`. */
  const Pi: real := 3.141592653589793

  /** The lens constants the main loop passes in (`H_VFOV`, `H_HFOV`). */
  const HalfVFov: real := 26.0
  const HalfHFov: real := 45.0

  /** The floating-point primitives the source calls: `tan` (on radians)
      and `round(·, 1)`. */
  datatype MathLib = MathLib(tan: real -> real, round1: real -> real)

  /** tan is non-negative on [0, pi/2) and positive on (0, pi/2). */
  ghost predicate TanSignsOnFirstQuadrant(m: MathLib) {
    forall x :: 0.0 <= x < Pi / 2.0 ==> 0.0 <= m.tan(x) && (0.0 < x ==> 0.0 < m.tan(x))
  }

  /** Rounding to one decimal never turns a non-negative value negative. */
  ghost predicate RoundKeepsSign(m: MathLib) {
    forall x :: 0.0 <= x ==> 0.0 <= m.round1(x)
  }

  function Radians(deg: real): real {
    deg * Pi / 180.0
  }

  /** A displayed distance. The source mixes Python floats, the integer 0
      and the strings 'Inf' and 'Invalid'; the integer 0 is kept apart from
      the floats because the far-below-near check tests `type(.) == float`. */
  datatype Distance = FloatVal(v: real) | IntZero | Inf | Invalid

  predicate IsNumber(d: Distance) {
    d.FloatVal? || d.IntZero?
  }

  /** The numeric value of a float or of the integer 0. */
  function Num(d: Distance): real
    requires IsNumber(d)
  {
    if d.FloatVal? then d.v else 0.0
  }

  /** Finite distances are non-negative. */
  predicate NonNegative(d: Distance) {
    d.FloatVal? ==> 0.0 <= d.v
  }

  /** The four distances, in the order the source returns them. */
  datatype Envelope = Envelope(minV: Distance, maxV: Distance, minH: Distance, maxH: Distance)

  const AllInvalid: Envelope := Envelope(Invalid, Invalid, Invalid, Invalid)

  predicate EnvelopeNonNegative(r: Envelope) {
    NonNegative(r.minV) && NonNegative(r.maxV) && NonNegative(r.minH) && NonNegative(r.maxH)
  }

  /** `cal_v_max_distance`: floor distance (m) reached by the upper edge of
      the vertical field of view, from a camera `height` cm high. */
  function CalVMaxDistance(m: MathLib, height: int, faceDeg: int, vFov: real): (d: real)
    ensures (TanSignsOnFirstQuadrant(m) && RoundKeepsSign(m) && 0 <= height
             && 0.0 <= 90.0 - (faceDeg as real - vFov) < 90.0) ==> 0.0 <= d
  {
    var angle := 90.0 - (faceDeg as real - vFov);
    assert 0.0 <= angle < 90.0 ==> 0.0 <= Radians(angle) < Pi / 2.0;
    m.round1(height as real * m.tan(Radians(angle)) / 100.0)
  }

  /** `cal_v_min_distance`: floor distance (m) reached by the lower edge of
      the vertical field of view. */
  function CalVMinDistance(m: MathLib, height: int, faceDeg: int, vFov: real): (d: real)
    ensures (TanSignsOnFirstQuadrant(m) && RoundKeepsSign(m) && 0 <= height
             && 0.0 <= 90.0 - (faceDeg as real + vFov) < 90.0) ==> 0.0 <= d
  {
    var angle := 90.0 - (faceDeg as real + vFov);
    assert 0.0 <= angle < 90.0 ==> 0.0 <= Radians(angle) < Pi / 2.0;
    m.round1(height as real * m.tan(Radians(angle)) / 100.0)
  }

  /** The lower edge at tilt f is the upper edge at tilt f + 2 * vFov: both
      formulas measure the same kind of ray. */
  lemma VMinIsShiftedVMax(m: MathLib, height: int, faceDeg: int, vFov: real)
    ensures CalVMinDistance(m, height, faceDeg, vFov) == CalVMaxDistance(m, height, faceDeg, -vFov)
  {
  }

  /** `cal_h_distance`: the width (m) of the horizontal field of view at
      floor distance `distance`. Always a Python float, even for the
      integer 0. */
  function CalHDistance(m: MathLib, distance: real, hFov: real): (w: real)
    ensures (TanSignsOnFirstQuadrant(m) && RoundKeepsSign(m) && 0.0 <= distance
             && 0.0 <= hFov < 90.0) ==> 0.0 <= w
  {
    assert 0.0 <= hFov < 90.0 ==> 0.0 <= Radians(hFov) < Pi / 2.0;
    m.round1(2.0 * distance * m.tan(Radians(hFov)))
  }

  /** The horizontal companion of a numeric vertical distance. */
  function HorizontalOf(m: MathLib, d: Distance, hFov: real): Distance
    requires IsNumber(d)
  {
    FloatVal(CalHDistance(m, Num(d), hFov))
  }

  /** `cal_theorical_min_max_distance`. Regime 1 (tilt <= half vertical
      FOV): the upper edge never meets the floor, so the far bounds are
      'Inf'. Regime 2 (tilt + half vertical FOV > 90): the near bounds are
      the integer 0. Regime 3: all four are computed. */
  function CalTheoreticalMinMaxDistance(m: MathLib, faceDeg: int, height: int, halfVFov: real, halfHFov: real)
    : (r: Envelope)
    ensures IsNumber(r.minV) && IsNumber(r.minH)
    ensures r.maxV.Inf? <==> faceDeg as real <= halfVFov
    ensures r.maxH.Inf? <==> faceDeg as real <= halfVFov
    ensures !r.maxV.Inf? ==> r.maxV.FloatVal? && r.maxH.FloatVal?
    ensures r.minV.IntZero? <==> halfVFov < faceDeg as real && faceDeg as real + halfVFov > 90.0
    ensures r.minH.IntZero? <==> r.minV.IntZero?
    ensures r.minV.FloatVal? ==>
              r.minV.v == CalVMinDistance(m, height, faceDeg, halfVFov) && r.minH == HorizontalOf(m, r.minV, halfHFov)
    ensures r.maxV.FloatVal? ==>
              r.maxV.v == CalVMaxDistance(m, height, faceDeg, halfVFov) && r.maxH == HorizontalOf(m, r.maxV, halfHFov)
  {
    if faceDeg as real <= halfVFov then
      var minV := CalVMinDistance(m, height, faceDeg, halfVFov);
      Envelope(FloatVal(minV), Inf, FloatVal(CalHDistance(m, minV, halfHFov)), Inf)
    else if faceDeg as real + halfVFov > 90.0 then
      var maxV := CalVMaxDistance(m, height, faceDeg, halfVFov);
      Envelope(IntZero, FloatVal(maxV), IntZero, FloatVal(CalHDistance(m, maxV, halfHFov)))
    else
      var maxV := CalVMaxDistance(m, height, faceDeg, halfVFov);
      var minV := CalVMinDistance(m, height, faceDeg, halfVFov);
      Envelope(FloatVal(minV), FloatVal(maxV),
               FloatVal(CalHDistance(m, minV, halfHFov)), FloatVal(CalHDistance(m, maxV, halfHFov)))
  }

  /** For a camera tilted 0..90 degrees with a half vertical FOV of at most
      45 degrees, every finite theoretical distance is non-negative. */
  lemma TheoreticalNonNegative(m: MathLib, faceDeg: int, height: int, halfVFov: real, halfHFov: real)
    requires TanSignsOnFirstQuadrant(m) && RoundKeepsSign(m)
    requires 0 <= faceDeg <= 90 && 0 <= height
    requires 0.0 < halfVFov <= 45.0 && 0.0 <= halfHFov < 90.0
    ensures EnvelopeNonNegative(CalTheoreticalMinMaxDistance(m, faceDeg, height, halfVFov, halfHFov))
  {
  }

  /** The far vertical distance scaled down to a person's head height,
      `round(max - max / height * p_height, 1)`. */
  function FarWithPerson(m: MathLib, pHeight: int, height: int, maxV: Distance): real
    requires IsNumber(maxV) && height != 0
  {
    var far := Num(maxV);
    m.round1(far - far / height as real * pHeight as real)
  }

  /** The near distance at which a person taller than the camera enters the
      upper edge of the view, `round((p_height - height) / tan(.), 1)`. */
  function NearForTallPerson(m: MathLib, pHeight: int, height: int, faceDeg: int, halfVFov: real): real
    requires m.tan(Radians(halfVFov - faceDeg as real)) != 0.0
  {
    m.round1((pHeight - height) as real / m.tan(Radians(halfVFov - faceDeg as real)))
  }

  /** The inputs on which `cal_min_max_distance_with_human_height` does not
      raise: a string distance in arithmetic is a TypeError, a zero camera
      height or a zero tangent is a ZeroDivisionError. */
  ghost predicate HumanHeightDefined(m: MathLib, pHeight: int, height: int, minV: Distance, maxV: Distance,
                                     faceDeg: int, halfVFov: real)
  {
    && (pHeight < height ==> IsNumber(minV))
    && (pHeight < height && halfVFov < faceDeg as real ==> IsNumber(maxV) && height != 0)
    && (pHeight == height && faceDeg as real <= halfVFov ==> IsNumber(minV))
    && (pHeight > height && faceDeg as real < halfVFov ==> m.tan(Radians(halfVFov - faceDeg as real)) != 0.0)
  }

  /** `cal_min_max_distance_with_human_height`. */
  function CalMinMaxDistanceWithHumanHeight(m: MathLib, pHeight: int, height: int, minV: Distance, maxV: Distance,
                                            faceDeg: int, halfVFov: real, halfHFov: real): (r: Envelope)
    requires HumanHeightDefined(m, pHeight, height, minV, maxV, faceDeg, halfVFov)
    // 'Invalid' is always assigned to all four distances together
    ensures r.minV.Invalid? ==> r == AllInvalid
    ensures r.maxV.Invalid? || r.minH.Invalid? || r.maxH.Invalid? ==> r.minV.Invalid?
    // the near bound is never 'Inf'; the far bounds are 'Inf' together
    ensures !r.minV.Inf? && !r.minH.Inf?
    ensures r.maxV.Inf? <==> r.maxH.Inf?
    // horizontal values are recomputed from their vertical counterpart
    ensures IsNumber(r.minV) ==> r.minH == HorizontalOf(m, r.minV, halfHFov)
    ensures IsNumber(r.maxV) ==> r.maxH == HorizontalOf(m, r.maxV, halfHFov)
    // a reported float far bound is never below a float near bound
    ensures r.minV.FloatVal? && r.maxV.FloatVal? ==> r.minV.v <= r.maxV.v
    // when the person is at least as tall as the camera, the far bound is unbounded or there is no range
    ensures pHeight >= height ==> r.maxV.Inf? || r == AllInvalid
    // camera higher than the person: the near bound passes through
    ensures pHeight < height && r != AllInvalid ==> r.minV == minV
    ensures pHeight < height ==> (r.maxV.Inf? <==> faceDeg as real <= halfVFov)
    ensures pHeight < height && halfVFov < faceDeg as real && r != AllInvalid
         ==> r.maxV == FloatVal(FarWithPerson(m, pHeight, height, maxV))
    ensures pHeight < height ==>
              (r == AllInvalid <==> halfVFov < faceDeg as real && minV.FloatVal?
                                    && FarWithPerson(m, pHeight, height, maxV) < minV.v)
    // equal heights
    ensures pHeight == height && faceDeg as real <= halfVFov ==> r.minV == minV && r.maxV.Inf?
    ensures pHeight == height && halfVFov < faceDeg as real ==> r == AllInvalid
    // camera lower than the person: strict tilt test
    ensures pHeight > height && faceDeg as real < halfVFov
         ==> r.minV == FloatVal(NearForTallPerson(m, pHeight, height, faceDeg, halfVFov)) && r.maxV.Inf?
    ensures pHeight > height && halfVFov <= faceDeg as real ==> r == AllInvalid
  {
    if pHeight < height then
      var minH := HorizontalOf(m, minV, halfHFov);
      if faceDeg as real <= halfVFov then
        Envelope(minV, Inf, minH, Inf)
      else
        var maxVP := FloatVal(FarWithPerson(m, pHeight, height, maxV));
        // the far-below-near check only fires when both are Python floats
        if minV.FloatVal? && maxVP.v < minV.v then
          AllInvalid
        else
          Envelope(minV, maxVP, minH, HorizontalOf(m, maxVP, halfHFov))
    else if pHeight == height then
      if faceDeg as real <= halfVFov then
        Envelope(minV, Inf, HorizontalOf(m, minV, halfHFov), Inf)
      else
        AllInvalid
    else
      if faceDeg as real < halfVFov then
        var minVP := FloatVal(NearForTallPerson(m, pHeight, height, faceDeg, halfVFov));
        Envelope(minVP, Inf, HorizontalOf(m, minVP, halfHFov), Inf)
      else
        AllInvalid
  }

  /** The main loop feeds the theoretical distances into the human-height
      refinement; for trackbar values (non-negative tilt and person height)
      and a half vertical FOV below 90 degrees that call never raises. */
  lemma PipelineDefined(m: MathLib, faceDeg: int, height: int, pHeight: int, halfVFov: real, halfHFov: real)
    requires TanSignsOnFirstQuadrant(m)
    requires 0 <= faceDeg && 0 <= pHeight && halfVFov < 90.0
    ensures var t := CalTheoreticalMinMaxDistance(m, faceDeg, height, halfVFov, halfHFov);
            HumanHeightDefined(m, pHeight, height, t.minV, t.maxV, faceDeg, halfVFov)
  {
  }

  /** Regime 2 pins the near bound to the integer 0, so with a person
      shorter than the camera the far-below-near check never fires there. */
  lemma IntZeroNearNeverInvalid(m: MathLib, faceDeg: int, height: int, pHeight: int, halfVFov: real, halfHFov: real)
    requires 0 <= pHeight < height
    requires halfVFov < faceDeg as real && faceDeg as real + halfVFov > 90.0
    ensures var t := CalTheoreticalMinMaxDistance(m, faceDeg, height, halfVFov, halfHFov);
            var r := CalMinMaxDistanceWithHumanHeight(m, pHeight, height, t.minV, t.maxV, faceDeg, halfVFov, halfHFov);
            r.minV == IntZero && r.maxV.FloatVal?
  {
  }

  /** With non-negative inputs, the refinement keeps every finite distance
      non-negative. */
  lemma HumanHeightNonNegative(m: MathLib, pHeight: int, height: int, minV: Distance, maxV: Distance,
                               faceDeg: int, halfVFov: real, halfHFov: real)
    requires TanSignsOnFirstQuadrant(m) && RoundKeepsSign(m)
    requires HumanHeightDefined(m, pHeight, height, minV, maxV, faceDeg, halfVFov)
    requires NonNegative(minV) && NonNegative(maxV)
    requires 0 <= pHeight && 0 <= faceDeg && halfVFov < 90.0 && 0.0 <= halfHFov < 90.0
    ensures EnvelopeNonNegative(CalMinMaxDistanceWithHumanHeight(m, pHeight, height, minV, maxV, faceDeg, halfVFov, halfHFov))
  {
  }

  /** A BGR colour as OpenCV takes it. */
  datatype Color = Color(b: int, g: int, r: int)

  const Green: Color := Color(0, 255, 0)
  const Red: Color := Color(0, 0, 255)
  const White: Color := Color(255, 255, 255)

  /** c is the colour the display uses for d. */
  predicate Signals(c: Color, d: Distance) {
    && (c == Green <==> d.Inf?)
    && (c == Red <==> d.Invalid?)
    && (c == White <==> IsNumber(d))
  }

  /** `get_distance_color`: green for 'Inf', red for 'Invalid', white for
      any number. */
  function GetDistanceColor(d: Distance): (c: Color)
    ensures Signals(c, d)
    ensures 0 <= c.b <= 255 && 0 <= c.g <= 255 && 0 <= c.r <= 255
  {
    if d.Inf? then Green
    else if d.Invalid? then Red
    else White
  }

  /** The colours of one envelope, in the order `max_v, min_v, max_h, min_h`. */
  datatype EnvelopeColors = EnvelopeColors(maxV: Color, minV: Color, maxH: Color, minH: Color)

  predicate ColorsSignal(c: EnvelopeColors, e: Envelope) {
    Signals(c.maxV, e.maxV) && Signals(c.minV, e.minV) && Signals(c.maxH, e.maxH) && Signals(c.minH, e.minH)
  }

  /** `set_min_max_distance_colormap`: the colour of each of the eight
      distances, position by position, for the theoretical envelope and
      for the one refined by the person's height. */
  function SetMinMaxDistanceColormap(theoretical: Envelope, person: Envelope)
    : (r: (EnvelopeColors, EnvelopeColors))
    ensures ColorsSignal(r.0, theoretical)
    ensures ColorsSignal(r.1, person)
  {
    (EnvelopeColors(GetDistanceColor(theoretical.maxV), GetDistanceColor(theoretical.minV),
                    GetDistanceColor(theoretical.maxH), GetDistanceColor(theoretical.minH)),
     EnvelopeColors(GetDistanceColor(person.maxV), GetDistanceColor(person.minV),
                    GetDistanceColor(person.maxH), GetDistanceColor(person.minH)))
  }

  /** One pass of the main loop's computation: the theoretical distances
      for the lens constants, their refinement by the person's height and
      the eight colours. For trackbar values (non-negative tilt and person
      height) nothing in it raises; the theoretical colours are never red,
      and the person's four colours are all red or none of them is. */
  function MainLoopReadout(m: MathLib, faceDeg: int, height: int, pHeight: int)
    : (r: (Envelope, Envelope, (EnvelopeColors, EnvelopeColors)))
    requires TanSignsOnFirstQuadrant(m)
    requires 0 <= faceDeg && 0 <= pHeight
    ensures r.0 == CalTheoreticalMinMaxDistance(m, faceDeg, height, HalfVFov, HalfHFov)
    ensures r.1 == CalMinMaxDistanceWithHumanHeight(m, pHeight, height, r.0.minV, r.0.maxV, faceDeg, HalfVFov, HalfHFov)
    ensures var ct := r.2.0;
            ct.maxV != Red && ct.minV != Red && ct.maxH != Red && ct.minH != Red
    ensures var cp := r.2.1;
            && (cp.minV == Red <==> cp.maxV == Red)
            && (cp.minV == Red <==> cp.maxH == Red)
            && (cp.minV == Red <==> cp.minH == Red)
  {
    var t := CalTheoreticalMinMaxDistance(m, faceDeg, height, HalfVFov, HalfHFov);
    PipelineDefined(m, faceDeg, height, pHeight, HalfVFov, HalfHFov);
    var p := CalMinMaxDistanceWithHumanHeight(m, pHeight, height, t.minV, t.maxV, faceDeg, HalfVFov, HalfHFov);
    (t, p, SetMinMaxDistanceColormap(t, p))
  }
}
