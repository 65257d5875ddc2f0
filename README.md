# FOV Range Simulator — verified model of the geometry core

This project models, in Dafny, the computational core of a camera
field-of-view checker: given a camera's tilt (`face_deg`), mounting height
and lens half-angles, it reports how near and how far on the floor the
camera sees (vertical distances) and how wide the view is there
(horizontal distances), refines those four distances for a person of a
given height, and picks the colour in which each distance is shown.
It also models the `Edge` line-segment primitive and its
segment-segment intersection test.

- `edge.dfy` (module `Edges`): `Edge` as an immutable datatype (support
  point plus direction vector), the point at a parameter, and the
  intersection test. numpy's `matrix_rank(A) < 2` is modelled exactly as
  "the determinant is zero" (equivalently, the cross product of the two
  directions is zero), and `linalg.solve` as Cramer's rule over `real`.
- `fov_checker.dfy` (module `FovChecker`): the distance formulas, the
  three tilt regimes, the human-height refinement, the colour mapping and
  one pass of the main loop's computation. A distance is a tagged value
  `FloatVal(v) | IntZero | Inf | Invalid`: the strings `'Inf'` and
  `'Invalid'` become constructors, and the integer `0` that the second
  regime assigns is kept apart from the floats because the
  far-below-near check only fires when both values are Python floats.
  `math.tan` and `round(·, 1)` are not modelled; they are a `MathLib`
  parameter, and the lemmas that need facts about them (tan is
  non-negative on [0, π/2) and positive on (0, π/2); rounding keeps
  non-negative values non-negative) state those facts as requirements.
  `pi` is the constant `3.141592653589793`.

Behaviours of the program that the model keeps:
- the horizontal width is `round(2·d·tan(h_fov), 1)` on the flat floor
  distance `d`, not on a slant distance `√(d² + h²)`;
- the second regime's near distances are the integer `0`, not a float;
  with a person shorter than the camera the near horizontal distance is
  then recomputed by `cal_h_distance` and becomes a float again;
- the person-adjusted far distance is rounded to one decimal;
- malformed inputs (negative tilt, zero heights) are not rejected; the
  human-height function instead requires exactly the inputs on which the
  Python code does not raise (arithmetic on the strings `'Inf'` or
  `'Invalid'` is a `TypeError`, a zero camera height or a zero tangent a
  `ZeroDivisionError`), and `PipelineDefined` proves that the main loop
  always meets that requirement.

## Model

| member | source | states |
|---|---|---|
| `Edges.NewEdge` | edge.py:7-9 | the edge built from `a` and `b` has its point at parameter 0 equal to `a` and at parameter 1 equal to `b` |
| `Edges.PointAt` | edge.py:20-21 | the point at any parameter lies on the line through the support point along the direction |
| `Edges.CoefficientMatrix` | edge.py:29-30 | the determinant of `A = [-d1, d2]ᵀ` is minus the cross product of the directions, so `A` is singular exactly when the edges are parallel or collinear |
| `Edges.Solve` | edge.py:32-33 | for a non-singular matrix the returned vector solves `A·x = b` |
| `Edges.SolutionUnique` | edge.py:30-33 | a non-singular system has only one solution |
| `Edges.SystemMeansMeeting` | edge.py:23-26 | `(t1, t2)` solves `A·t = s1 − s2` iff the receiver's point at `t1` is the other edge's point at `t2` |
| `Edges.IntersectionParameter` | edge.py:28-34 | `None` for parallel or collinear edges; a returned `t1` is in `[0, 1]` and its point lies on the other segment |
| `Edges.IntersectionPoint` | edge.py:11-13 | `None` for parallel or collinear edges; a returned point lies on both closed segments |
| `Edges.IntersectionParameterComplete` | edge.py:28-34 | for non-parallel edges meeting at parameters `t1`, `t2` both in `[0, 1]` (bounds inclusive), the parameter returned is `t1` |
| `Edges.IntersectionComplete` | edge.py:28-34 | non-parallel edges that share a point report exactly that point |
| `Edges.IntersectsIffShared` | edge.py:28-34 | for non-parallel edges a point is returned iff the two segments share a point (so disjoint non-parallel segments give `None`) |
| `Edges.IntersectionSymmetric` | edge.py:23-34 | swapping the operands gives the same point, or `None` both ways |
| `Edges.TouchingEndpointsIntersect` | edge.py:34 | parameter bounds are inclusive: non-parallel edges `a-b` and `b-c` meet at `b` |
| `FovChecker.CalVMaxDistance` | fov_checker.py:57-59 | the far vertical distance is non-negative whenever the upper-edge angle `90 − (face − v_fov)` is in `[0, 90)` |
| `FovChecker.CalVMinDistance` | fov_checker.py:62-64 | the near vertical distance is non-negative whenever the lower-edge angle `90 − (face + v_fov)` is in `[0, 90)` |
| `FovChecker.VMinIsShiftedVMax` | fov_checker.py:57-64 | the near formula is the far formula with the half-FOV negated |
| `FovChecker.CalHDistance` | fov_checker.py:67-69 | the horizontal width at a non-negative distance is non-negative for a half horizontal FOV in `[0, 90)` |
| `FovChecker.CalTheoreticalMinMaxDistance` | fov_checker.py:135-177 | far distances are `'Inf'` iff `face ≤ half_vfov` (boundary included); near distances are the integer 0 iff `face > half_vfov` and `face + half_vfov > 90`; nothing is `'Invalid'`; every float vertical value is the formula's and every float horizontal value is `cal_h_distance` of its vertical counterpart |
| `FovChecker.TheoreticalNonNegative` | fov_checker.py:145-176 | for tilt in `[0, 90]` and a half vertical FOV in `(0, 45]`, every float distance is non-negative |
| `FovChecker.CalMinMaxDistanceWithHumanHeight` | fov_checker.py:181-252 | `'Invalid'` is assigned to all four values jointly; near values are never `'Inf'` and the far pair is `'Inf'` together; horizontal values are `cal_h_distance` of their vertical counterparts; a float far value is never below a float near value; shorter person: near passes through, far is `'Inf'` iff `face ≤ half_vfov`, otherwise the scaled far value, and all `'Invalid'` iff that is below a float near value; equal heights: near unchanged and far `'Inf'` if `face ≤ half_vfov`, else all `'Invalid'`; taller person: near from the tangent formula and far `'Inf'` iff `face < half_vfov` (strict), else all `'Invalid'` |
| `FovChecker.PipelineDefined` | fov_checker.py:378-395 | the theoretical distances fed into the human-height refinement never make it raise, for non-negative tilt and person height and a half vertical FOV below 90 |
| `FovChecker.IntZeroNearNeverInvalid` | fov_checker.py:208-223 | in the second regime the integer near value 0 passes through and the far-below-near check never fires |
| `FovChecker.HumanHeightNonNegative` | fov_checker.py:208-250 | non-negative inputs give non-negative float results in every height regime |
| `FovChecker.GetDistanceColor` | fov_checker.py:256-276 | green `(0,255,0)` iff `'Inf'`, red `(0,0,255)` iff `'Invalid'`, white iff a number; every component in `0..255` |
| `FovChecker.SetMinMaxDistanceColormap` | fov_checker.py:279-290 | each of the eight colours signals the state of the distance at the same position |
| `FovChecker.MainLoopReadout` | fov_checker.py:378-410 | the main loop's three calls compose without raising; the theoretical colours are never red; the person's four colours are all red or none is |

## Left out

- `FovChecker.TheoreticalNonNegative`: proved only for a half vertical FOV of at most 45 degrees (the program uses 26). With a wider lens, a tilt with `face ≤ half_vfov` and `face + half_vfov > 90` falls in the first regime, which evaluates tan at the negative angle `90 − (face + half_vfov)` and can report a negative near distance, although the docstring promises `0-Inf`.
- `FovChecker.CalMinMaxDistanceWithHumanHeight`: requires the inputs on which the Python function does not raise, so the raising paths are not modelled as outcomes: a string distance (`'Inf'` or `'Invalid'`) in arithmetic at fov_checker.py:210, :216 and :232 (TypeError), a camera height of 0 at :216 and a tangent of 0 at :243 (ZeroDivisionError). `FovChecker.PipelineDefined` proves the main loop never passes such inputs.
- Python float arithmetic (`*`, `/`, `-`, `+` at fov_checker.py:58, :63, :68, :216 and :243) is modelled as exact real arithmetic; intermediate rounding errors, including those feeding the far-below-near comparison at :221, are not captured.
- `math.tan`, `math.pi` and `round(·, 1)`: floating-point functions; tan and rounding are parameters, pi is its decimal value, and no concrete numeric output is proved.
- Monotonicity of the distances in the tilt angle: it depends on properties of tan beyond its sign.
- numpy's numerical tolerance in `matrix_rank` and `linalg.solve`: the model decides singularity and solves exactly over the reals.
- The OpenCV window, trackbars and drawing (`window_init`, `get_trackbar_values`, `cv2.putText`/`polylines`/`imshow`/`waitKey`), and the Tk room-size dialog `TkApp`: user-interface plumbing with no logic to state; trackbar values are parameters.
- The trapezoid corner computation and room clamping inside the main loop (fov_checker.py:434-537): it is interleaved with drawing in an endless UI loop, depends on room sizes written by the Tk callback, and one branch uses the undefined name `ROOM_WIDTH`.
- Convex-polygon clipping, pan rotation, angular sorting and vertex de-duplication: these are not part of this model's source files.
