/** Where a position falls on a polyline (`projectOnLine` in web/directions.js). */
module Polyline {
  import opened Wrappers
  import opened Reals

  // Metres, east and north.
  datatype Point = Point(x: real, y: real)

  /** A position as the route and the phone give it, in degrees. */
  datatype LngLat = LngLat(lng: real, lat: real)

  const M_PER_DEG := 111320.0

  /** The flat projection around the visitor, who becomes the origin. `cosLat` is the
      cosine of the visitor's latitude. */
  function Project(q: LngLat, p: LngLat, cosLat: real): Point {
    Point(Times(q.lng - p.lng, Times(M_PER_DEG, cosLat)), Times(q.lat - p.lat, M_PER_DEG))
  }

  /** The projection is a local map: the visitor at its origin, a degree of latitude
      M_PER_DEG metres to the north, a degree of longitude that times the cosine to the
      east, and nothing across. */
  lemma ProjectIsLocal(q: LngLat, p: LngLat, cosLat: real, d: real)
    ensures Project(p, p, cosLat) == Point(0.0, 0.0)
    ensures var at, north, east := Project(q, p, cosLat), Project(LngLat(q.lng, q.lat + d), p, cosLat),
        Project(LngLat(q.lng + d, q.lat), p, cosLat);
      && north == Point(at.x, at.y + d * M_PER_DEG)
      && east == Point(at.x + d * (M_PER_DEG * cosLat), at.y)
  {
    var kx := Times(M_PER_DEG, cosLat);
    Distribute(kx, q.lng - p.lng, d);
    assert Times(q.lng + d - p.lng, kx) == Times(q.lng - p.lng, kx) + Times(d, kx);
  }

  function Projected(points: seq<LngLat>, p: LngLat, cosLat: real): (r: seq<Point>)
    ensures |r| == |points| && forall i :: 0 <= i < |r| ==> r[i] == Project(points[i], p, cosLat)
  {
    if points == [] then [] else [Project(points[0], p, cosLat)] + Projected(points[1..], p, cosLat)
  }

  /** Math.hypot, up to rounding: the nonnegative root of the sum of squares. */
  ghost predicate IsHypot(h: (real, real) -> real) {
    forall x, y :: h(x, y) >= 0.0 && Times(h(x, y), h(x, y)) == Times(x, x) + Times(y, y)
  }

  function Clamp(t: real): (r: real)
    ensures 0.0 <= r <= 1.0
  {
    if t < 0.0 then 0.0 else if t > 1.0 then 1.0 else t
  }

  /** The point a share `t` along the segment from `a` to `b`. */
  function At(a: Point, b: Point, t: real): Point {
    Point(a.x + Times(t, b.x - a.x), a.y + Times(t, b.y - a.y))
  }

  /** It starts at `a`, ends at `b`, and is straight: equal shares make equal steps. */
  lemma AtEnds(a: Point, b: Point, t: real, d: real)
    ensures At(a, b, 0.0) == a && At(a, b, 1.0) == b
    ensures var p, q := At(a, b, t), At(a, b, t + d);
      q.x - p.x == d * (b.x - a.x) && q.y - p.y == d * (b.y - a.y)
  {
    Distribute(b.x - a.x, t, d);
    Distribute(b.y - a.y, t, d);
  }

  /** How far a point is from the visitor. */
  function Dist(h: (real, real) -> real, q: Point): real { h(q.x, q.y) }

  function Len(h: (real, real) -> real, a: Point, b: Point): real { h(b.x - a.x, b.y - a.y) }

  /** Where b + ct vanishes; zero for a segment with no length. */
  function Vertex(b: real, c: real): real { if c == 0.0 then 0.0 else -b / c }

  /** The share along a segment at which it comes nearest the visitor. */
  function Foot(h: (real, real) -> real, a: Point, b: Point): (t: real)
    ensures 0.0 <= t <= 1.0
  {
    var dx, dy, len := b.x - a.x, b.y - a.y, Len(h, a, b);
    Clamp(Vertex(Times(a.x, dx) + Times(a.y, dy), Times(len, len)))
  }

  /** The length of the line up to its `n`-th point. */
  function Walked(h: (real, real) -> real, line: seq<Point>, n: nat): real
    requires n < |line|
  {
    if n == 0 then 0.0 else Walked(h, line, n - 1) + Len(h, line[n - 1], line[n])
  }

  // ---- the squared distance along a segment is a parabola

  function Norm2(q: Point): real { Times(q.x, q.x) + Times(q.y, q.y) }

  /** a + 2bt + ct^2 with c > 0 is least on [0, 1] at -b/c, clamped. */
  lemma ParabolaNearest(b: real, c: real, s: real, t: real)
    requires c > 0.0 && 0.0 <= t <= 1.0 && s == Clamp(Vertex(b, c))
    ensures 2.0 * Times(s, b) + Times(Times(s, s), c) <= 2.0 * Times(t, b) + Times(Times(t, t), c)
  {
    var m := Vertex(b, c);
    // The difference is c (t - s) (t + s - 2m), and both factors have one sign.
    if m < 0.0 {
      Sign(t - s, t + s - 2.0 * m);
    } else if m > 1.0 {
      Sign(s - t, 2.0 * m - t - s);
      assert Times(s - t, 2.0 * m - t - s) == Times(t - s, t + s - 2.0 * m);
    } else {
      SquareSign(t - s);
    }
    Sign(c, Times(t - s, t + s - 2.0 * m));
    VertexDifference(b, c, m, s, t);
  }

  lemma VertexDifference(b: real, c: real, m: real, s: real, t: real)
    requires c > 0.0 && m == Vertex(b, c)
    ensures Times(c, Times(t - s, t + s - 2.0 * m))
      == (2.0 * Times(t, b) + Times(Times(t, t), c)) - (2.0 * Times(s, b) + Times(Times(s, s), c))
  {
    assert m * c == -b;
    assert c * ((t - s) * (t + s - 2.0 * m)) == (t * t) * c - (s * s) * c - 2.0 * ((t - s) * (m * c));
  }

  lemma SquareStep(a: real, d: real, t: real)
    ensures Times(a + Times(t, d), a + Times(t, d)) ==
        Times(a, a) + 2.0 * Times(t, Times(a, d)) + Times(Times(t, t), Times(d, d))
  {
  }

  /** The squared distance to the point a share `t` along a segment. */
  lemma StepNorm(a: Point, b: Point, t: real)
    ensures var dx, dy := b.x - a.x, b.y - a.y;
      Norm2(At(a, b, t)) == Norm2(a)
        + 2.0 * Times(t, Times(a.x, dx) + Times(a.y, dy)) + Times(Times(t, t), Times(dx, dx) + Times(dy, dy))
  {
    var dx, dy := b.x - a.x, b.y - a.y;
    SquareStep(a.x, dx, t);
    SquareStep(a.y, dy, t);
    Distribute(t, Times(a.x, dx), Times(a.y, dy));
    Distribute(Times(t, t), Times(dx, dx), Times(dy, dy));
  }

  /** The clamped foot of the perpendicular is the segment's nearest point, also when
      the segment has no length. */
  lemma SegmentNearest(h: (real, real) -> real, a: Point, b: Point, t: real)
    requires IsHypot(h) && 0.0 <= t <= 1.0
    ensures Dist(h, At(a, b, Foot(h, a, b))) <= Dist(h, At(a, b, t))
  {
    var dx, dy, len, s := b.x - a.x, b.y - a.y, Len(h, a, b), Foot(h, a, b);
    var p, q := At(a, b, s), At(a, b, t);
    SquareSign(len);
    if len == 0.0 {
      SquareSign(dx);
      SquareSign(dy);
      Units(s);
      Units(t);
    } else {
      StepNorm(a, b, s);
      StepNorm(a, b, t);
      ParabolaNearest(Times(a.x, dx) + Times(a.y, dy), Times(len, len), s, t);
    }
    SquareOrder(Dist(h, p), Dist(h, q));
  }

  // ---- nearest point on a line

  /** Where the visitor falls on a line: off it, along it, and its whole length. */
  datatype OnLine = OnLine(dist: real, along: real, total: real)

  /** The nearest point of a segment: its distance, and how far along the line it is. */
  datatype Near = Near(dist: real, along: real)

  function Candidate(h: (real, real) -> real, line: seq<Point>, i: nat): Near
    requires i + 1 < |line|
  {
    var t := Foot(h, line[i], line[i + 1]);
    Near(Dist(h, At(line[i], line[i + 1], t)), Walked(h, line, i) + Times(t, Len(h, line[i], line[i + 1])))
  }

  function Candidates(h: (real, real) -> real, line: seq<Point>, n: nat): (r: seq<Near>)
    requires n < |line|
    ensures |r| == n && forall i :: 0 <= i < n ==> r[i] == Candidate(h, line, i)
  {
    if n == 0 then [] else Candidates(h, line, n - 1) + [Candidate(h, line, n - 1)]
  }

  /** The first of the nearest. */
  function Best(near: seq<Near>): (r: Near)
    requires near != []
    ensures r in near && forall k :: 0 <= k < |near| ==> r.dist <= near[k].dist
  {
    var n := |near| - 1;
    if n == 0 || near[n].dist < Best(near[..n]).dist then near[n] else Best(near[..n])
  }

  function OnLineAt(h: (real, real) -> real, line: seq<Point>): Option<OnLine> {
    if line == [] then None
    else if |line| == 1 then Some(OnLine(Dist(h, line[0]), 0.0, 0.0))
    else
      var best := Best(Candidates(h, line, |line| - 1));
      Some(OnLine(best.dist, best.along, Walked(h, line, |line| - 1)))
  }

  /** The nearest of the first `n` segments' points, once there is one. */
  function BestOf(h: (real, real) -> real, line: seq<Point>, n: nat): Option<Near>
    requires n < |line|
  {
    if n == 0 then None else Some(Best(Candidates(h, line, n)))
  }

  lemma {:induction false} BestAppend(near: seq<Near>, c: Near)
    ensures Best(near + [c]) == if near == [] || c.dist < Best(near).dist then c else Best(near)
  {
    assert (near + [c])[..|near|] == near;
  }

  /** What one turn of the loop adds, given the turn's own figures. */
  lemma Turn(h: (real, real) -> real, line: seq<Point>, n: nat, a: Point, b: Point, walked: real)
    requires n + 1 < |line| && a == line[n] && b == line[n + 1] && walked == Walked(h, line, n)
    ensures var near, best := Near(Dist(h, At(a, b, Foot(h, a, b))), walked + Times(Foot(h, a, b), Len(h, a, b))),
        BestOf(h, line, n);
      BestOf(h, line, n + 1) == if best.None? || near.dist < best.value.dist then Some(near) else best
    ensures Walked(h, line, n + 1) == walked + Len(h, a, b)
  {
    hide Foot, At, Dist, Len, Times, Best;
    BestAppend(Candidates(h, line, n), Candidate(h, line, n));
  }

  lemma {:induction false} OnLineEnds(h: (real, real) -> real, line: seq<Point>)
    ensures line == [] ==> OnLineAt(h, line) == None
    ensures |line| == 1 ==> OnLineAt(h, line) == Some(OnLine(Dist(h, line[0]), 0.0, 0.0))
    ensures |line| >= 2 ==> var n := |line| - 1;
      && BestOf(h, line, n).Some? && Walked(h, line, 0) == 0.0 && BestOf(h, line, 0) == None
      && OnLineAt(h, line) ==
          Some(OnLine(BestOf(h, line, n).value.dist, BestOf(h, line, n).value.along, Walked(h, line, n)))
  {
  }

  /** `projectOnLine`. */
  method ProjectOnLine(points: seq<LngLat>, p: LngLat, cosLat: real, h: (real, real) -> real)
    returns (at: Option<OnLine>)
    ensures at == OnLineAt(h, Projected(points, p, cosLat))
  {
    hide Foot, At, Dist, Len, Times, Project, OnLineAt, Candidate, Candidates, Best, BestOf, Walked;
    ghost var line := Projected(points, p, cosLat);
    OnLineEnds(h, line);
    if |points| == 0 {
      return None;
    }
    var walked := 0.0;
    var a := Project(points[0], p, cosLat);
    if |points| == 1 {
      return Some(OnLine(Dist(h, a), 0.0, 0.0));
    }
    var best: Option<Near> := None;
    var i := 1;
    while i < |points|
      invariant 1 <= i <= |points|
      invariant a == line[i - 1] && walked == Walked(h, line, i - 1)
      invariant best == BestOf(h, line, i - 1)
    {
      var b := Project(points[i], p, cosLat);
      var len := Len(h, a, b);
      var t := Foot(h, a, b);
      var near := Near(Dist(h, At(a, b, t)), walked + Times(t, len));
      Turn(h, line, i - 1, a, b, walked);
      if best == None || near.dist < best.value.dist {
        best := Some(near);
      }
      walked := walked + len;
      a := b;
      i := i + 1;
    }
    return Some(OnLine(best.value.dist, best.value.along, walked));
  }

  lemma {:induction false} WalkedGrows(h: (real, real) -> real, line: seq<Point>, i: nat, n: nat)
    requires IsHypot(h) && i <= n < |line|
    ensures 0.0 <= Walked(h, line, i) <= Walked(h, line, n)
  {
    if n > 0 {
      if i < n {
        WalkedGrows(h, line, i, n - 1);
      } else {
        WalkedGrows(h, line, n - 1, n - 1);
      }
    }
  }

  lemma LenNonnegative(h: (real, real) -> real, a: Point, b: Point)
    requires IsHypot(h)
    ensures Len(h, a, b) >= 0.0
  {
  }

  /** The reported distance is the least distance from the visitor to any point of
      any segment. */
  lemma NearestPoint(h: (real, real) -> real, line: seq<Point>, i: nat, t: real)
    requires IsHypot(h) && i + 1 < |line| && 0.0 <= t <= 1.0
    ensures OnLineAt(h, line).value.dist <= Dist(h, At(line[i], line[i + 1], t))
  {
    SegmentNearest(h, line[i], line[i + 1], t);
    assert Candidates(h, line, |line| - 1)[i] == Candidate(h, line, i);
  }

  /** It is attained at the reported place, a share `t` along segment `i`, and that
      place is on the line. */
  lemma NearestPointAttained(h: (real, real) -> real, line: seq<Point>) returns (i: nat, t: real)
    requires IsHypot(h) && |line| >= 2
    ensures i + 1 < |line| && 0.0 <= t <= 1.0
    ensures OnLineAt(h, line).value.dist == Dist(h, At(line[i], line[i + 1], t))
    ensures OnLineAt(h, line).value.along == Walked(h, line, i) + Times(t, Len(h, line[i], line[i + 1]))
    ensures 0.0 <= OnLineAt(h, line).value.along <= OnLineAt(h, line).value.total
  {
    hide Foot, At, Dist, Len, Times;
    var near := Candidates(h, line, |line| - 1);
    i :| 0 <= i < |near| && near[i] == Best(near);
    t := Foot(h, line[i], line[i + 1]);
    WalkedGrows(h, line, i, i);
    WalkedGrows(h, line, i + 1, |line| - 1);
    LenNonnegative(h, line[i], line[i + 1]);
    Part(t, Len(h, line[i], line[i + 1]));
  }
}
