/** Model of the `Edge` class of edge.py: a closed line segment given by a
    support point and a direction vector, and the segment-segment
    intersection test built on a 2x2 linear solve.

    numpy's floating-point `matrix_rank` and `linalg.solve` are replaced by
    exact real arithmetic: the matrix is singular exactly when its
    determinant is zero, and the solve is Cramer's rule. */
module Edges {

  datatype Option<T> = None | Some(value: T)

  /** A point, or a displacement, in the plane (a numpy 2-vector). */
  datatype Vector = Vector(x: real, y: real)

  function Add(p: Vector, q: Vector): Vector {
    Vector(p.x + q.x, p.y + q.y)
  }

  function Sub(p: Vector, q: Vector): Vector {
    Vector(p.x - q.x, p.y - q.y)
  }

  function Scale(t: real, v: Vector): Vector {
    Vector(t * v.x, t * v.y)
  }

  /** The z-component of the cross product; zero iff u and v are parallel. */
  function Cross(u: Vector, v: Vector): real {
    u.x * v.y - u.y * v.x
  }

  /** The segment support + t * direction, 0 <= t <= 1. The fields are set
      once by the constructor and never change afterwards. */
  datatype Edge = Edge(support: Vector, direction: Vector)

  /** `Edge.__init__(point_a, point_b)`: support a, direction b - a. */
  function NewEdge(a: Vector, b: Vector): (e: Edge)
    ensures PointAt(e, 0.0) == a
    ensures PointAt(e, 1.0) == b
  {
    Edge(a, Sub(b, a))
  }

  /** `Edge._get_point(t)`: the point at parameter t on the edge's line. */
  function PointAt(e: Edge, t: real): (p: Vector)
    ensures Cross(e.direction, Sub(p, e.support)) == 0.0
  {
    Add(e.support, Scale(t, e.direction))
  }

  /** p lies on the closed segment of e. */
  ghost predicate OnSegment(e: Edge, p: Vector) {
    exists t :: 0.0 <= t <= 1.0 && PointAt(e, t) == p
  }

  /** A 2x2 matrix, rows (a00 a01) and (a10 a11). */
  datatype Matrix = Matrix(a00: real, a01: real, a10: real, a11: real)

  function Det(m: Matrix): real {
    m.a00 * m.a11 - m.a01 * m.a10
  }

  /** The matrix-vector product m * v. */
  function Apply(m: Matrix, v: Vector): Vector {
    Vector(m.a00 * v.x + m.a01 * v.y, m.a10 * v.x + m.a11 * v.y)
  }

  /** `np.linalg.solve` on a non-singular 2x2 system, by Cramer's rule. */
  function Solve(m: Matrix, b: Vector): (v: Vector)
    requires Det(m) != 0.0
    ensures Apply(m, v) == b
  {
    var d := Det(m);
    var v := Vector((b.x * m.a11 - m.a01 * b.y) / d, (m.a00 * b.y - b.x * m.a10) / d);
    assert v.x * d == b.x * m.a11 - m.a01 * b.y;
    assert v.y * d == m.a00 * b.y - b.x * m.a10;
    assert (m.a00 * v.x + m.a01 * v.y) * d == b.x * d;
    assert (m.a10 * v.x + m.a11 * v.y) * d == b.y * d;
    v
  }

  /** A non-singular system has at most one solution. */
  lemma SolutionUnique(m: Matrix, u: Vector, v: Vector)
    requires Det(m) != 0.0
    requires Apply(m, u) == Apply(m, v)
    ensures u == v
  {
  }

  /** The matrix A = [-d1, d2]^T of `_get_intersection_parameter`: its
      columns are the negated receiver direction and the other direction. */
  function CoefficientMatrix(e: Edge, other: Edge): (m: Matrix)
    ensures Det(m) == -Cross(e.direction, other.direction)
  {
    Matrix(-e.direction.x, other.direction.x, -e.direction.y, other.direction.y)
  }

  /** (t1, t2) solves A (t1, t2) = s1 - s2 exactly when the receiver's point
      at t1 is the other edge's point at t2. */
  lemma SystemMeansMeeting(e: Edge, other: Edge, t: Vector)
    ensures Apply(CoefficientMatrix(e, other), t) == Sub(e.support, other.support)
        <==> PointAt(e, t.x) == PointAt(other, t.y)
  {
  }

  /** `Edge._get_intersection_parameter(other)`: None when the system is
      singular (parallel or collinear edges) or when either parameter is
      outside [0, 1]; otherwise the receiver's parameter t1. */
  function IntersectionParameter(e: Edge, other: Edge): (t: Option<real>)
    ensures Cross(e.direction, other.direction) == 0.0 ==> t == None
    ensures t.Some? ==> 0.0 <= t.value <= 1.0
    ensures t.Some? ==> OnSegment(other, PointAt(e, t.value))
  {
    var a := CoefficientMatrix(e, other);
    if Det(a) == 0.0 then
      None
    else
      var x := Solve(a, Sub(e.support, other.support));
      SystemMeansMeeting(e, other, x);
      if 0.0 <= x.x <= 1.0 && 0.0 <= x.y <= 1.0 then Some(x.x) else None
  }

  /** `Edge.get_intersection_point(other)`. */
  function IntersectionPoint(e: Edge, other: Edge): (p: Option<Vector>)
    ensures Cross(e.direction, other.direction) == 0.0 ==> p == None
    ensures p.Some? ==> OnSegment(e, p.value) && OnSegment(other, p.value)
  {
    var t := IntersectionParameter(e, other);
    if t.None? then None else Some(PointAt(e, t.value))
  }

  /** Non-parallel edges that share a point report exactly that point. */
  lemma IntersectionComplete(e: Edge, other: Edge, q: Vector)
    requires Cross(e.direction, other.direction) != 0.0
    requires OnSegment(e, q) && OnSegment(other, q)
    ensures IntersectionPoint(e, other) == Some(q)
  {
    var t1 :| 0.0 <= t1 <= 1.0 && PointAt(e, t1) == q;
    var t2 :| 0.0 <= t2 <= 1.0 && PointAt(other, t2) == q;
    var a := CoefficientMatrix(e, other);
    var b := Sub(e.support, other.support);
    var x := Solve(a, b);
    SystemMeansMeeting(e, other, Vector(t1, t2));
    SolutionUnique(a, x, Vector(t1, t2));
  }

  /** Conversely, when the edges are not parallel and meet at parameters t1
      and t2 that both lie in [0, 1], the parameter reported is t1. */
  lemma IntersectionParameterComplete(e: Edge, other: Edge, t1: real, t2: real)
    requires Cross(e.direction, other.direction) != 0.0
    requires 0.0 <= t1 <= 1.0 && 0.0 <= t2 <= 1.0
    requires PointAt(e, t1) == PointAt(other, t2)
    ensures IntersectionParameter(e, other) == Some(t1)
  {
    var a := CoefficientMatrix(e, other);
    var x := Solve(a, Sub(e.support, other.support));
    SystemMeansMeeting(e, other, Vector(t1, t2));
    SolutionUnique(a, x, Vector(t1, t2));
  }

  /** For non-parallel edges, an intersection is reported iff the segments
      share a point. */
  lemma IntersectsIffShared(e: Edge, other: Edge)
    requires Cross(e.direction, other.direction) != 0.0
    ensures IntersectionPoint(e, other).Some?
        <==> exists q :: OnSegment(e, q) && OnSegment(other, q)
  {
    if q :| OnSegment(e, q) && OnSegment(other, q) {
      IntersectionComplete(e, other, q);
    }
  }

  /** Swapping the operands gives the same point, or None both ways. */
  lemma IntersectionSymmetric(e: Edge, other: Edge)
    ensures IntersectionPoint(e, other) == IntersectionPoint(other, e)
  {
    assert Cross(other.direction, e.direction) == -Cross(e.direction, other.direction);
    if Cross(e.direction, other.direction) != 0.0 {
      var p := IntersectionPoint(e, other);
      var p' := IntersectionPoint(other, e);
      if p.Some? {
        IntersectionComplete(other, e, p.value);
      } else if p'.Some? {
        IntersectionComplete(e, other, p'.value);
      }
    }
  }

  /** The parameter bounds are inclusive: two non-parallel edges a-b and
      b-c that only touch at b intersect at b. */
  lemma TouchingEndpointsIntersect(a: Vector, b: Vector, c: Vector)
    requires Cross(Sub(b, a), Sub(c, b)) != 0.0
    ensures IntersectionPoint(NewEdge(a, b), NewEdge(b, c)) == Some(b)
  {
    var e, other := NewEdge(a, b), NewEdge(b, c);
    assert PointAt(e, 1.0) == b;
    assert PointAt(other, 0.0) == b;
    IntersectionComplete(e, other, b);
  }
}
