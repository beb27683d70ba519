/** Turning geometry into screen-space triangles: the two back-face tests,
    near-plane clipping of occluder triangles with its re-triangulation, the
    projection and screen transforms, and the triangles of an occludee's
    bounding box. */
module NearClip {
  import opened Geometry
  import BoxClip

  // ---------------------------------------------------------------------
  // Back-face tests.
  // ---------------------------------------------------------------------

  /** The dot product _isBackFacingCameraViewSpace computes: the face normal
      e1 x e2 (e1 = v2 - v1, e2 = v3 - v1) against the view vector v1. */
  function FaceNormalDot(v1: Vec4, v2: Vec4, v3: Vec4): real {
    var e1x, e1y, e1z := v2.x - v1.x, v2.y - v1.y, v2.z - v1.z;
    var e2x, e2y, e2z := v3.x - v1.x, v3.y - v1.y, v3.z - v1.z;
    (e2z * e1y - e2y * e1z) * v1.x + (e2x * e1z - e2z * e1x) * v1.y + (e2y * e1x - e2x * e1y) * v1.z
  }

  predicate IsBackFacingCameraViewSpace(v1: Vec4, v2: Vec4, v3: Vec4) {
    FaceNormalDot(v1, v2, v3) > 0.0
  }

  /** The determinant of the 3x3 matrix whose rows are the x, y, z parts of a, b, c. */
  function Det3(a: Vec4, b: Vec4, c: Vec4): real {
    a.x * (b.y * c.z - b.z * c.y) - a.y * (b.x * c.z - b.z * c.x) + a.z * (b.x * c.y - b.y * c.x)
  }

  /** Seen from the camera at the origin, a triangle is back-facing exactly
      when its vertices, read as the rows of a matrix, have a positive
      determinant; so the test does not depend on which vertex is first, and
      reversing the winding turns a back face into a front face. */
  lemma ViewSpaceFacing(v1: Vec4, v2: Vec4, v3: Vec4)
    ensures IsBackFacingCameraViewSpace(v1, v2, v3) <==> Det3(v1, v2, v3) > 0.0
    ensures IsBackFacingCameraViewSpace(v1, v2, v3) == IsBackFacingCameraViewSpace(v2, v3, v1)
    ensures IsBackFacingCameraViewSpace(v1, v3, v2) <==> Det3(v1, v2, v3) < 0.0
  {
    DotIsDet(v1, v2, v3);
    DotIsDet(v2, v3, v1);
    DotIsDet(v1, v3, v2);
    DetRows(v1, v2, v3);
  }

  lemma DotIsDet(a: Vec4, b: Vec4, c: Vec4)
    ensures FaceNormalDot(a, b, c) == Det3(a, b, c)
  {
  }

  /** Rotating the rows keeps the determinant; swapping two negates it. */
  lemma DetRows(a: Vec4, b: Vec4, c: Vec4)
    ensures Det3(b, c, a) == Det3(a, b, c)
    ensures Det3(a, c, b) == -Det3(a, b, c)
  {
  }

  /** The z part of the face normal _isBackFacingProjected computes: twice the
      signed area of the triangle in the x-y plane. */
  function FaceNormalZ(v1: Vec4, v2: Vec4, v3: Vec4): real {
    var e1x, e1y := v2.x - v1.x, v2.y - v1.y;
    var e2x, e2y := v3.x - v1.x, v3.y - v1.y;
    e2y * e1x - e2x * e1y
  }

  predicate IsBackFacingProjected(v1: Vec4, v2: Vec4, v3: Vec4) {
    FaceNormalZ(v1, v2, v3) < 0.0
  }

  /** The projected test is invariant under rotating the vertices and is
      inverted by reversing them. */
  lemma ProjectedFacing(v1: Vec4, v2: Vec4, v3: Vec4)
    ensures IsBackFacingProjected(v1, v2, v3) == IsBackFacingProjected(v2, v3, v1)
    ensures IsBackFacingProjected(v1, v3, v2) <==> FaceNormalZ(v1, v2, v3) > 0.0
  {
    assert FaceNormalZ(v2, v3, v1) == FaceNormalZ(v1, v2, v3);
    assert FaceNormalZ(v1, v3, v2) == -FaceNormalZ(v1, v2, v3);
  }

  // ---------------------------------------------------------------------
  // Projection and the screen transform.
  // ---------------------------------------------------------------------

  /** The homogeneous division of _projectionTransform: x and y divided by w,
      z and w kept. */
  function Homogenize(p: Vec4): (r: Vec4)
    ensures r.z == p.z && r.w == p.w
    ensures p.w != 0.0 ==> r.x * p.w == p.x && r.y * p.w == p.y
  {
    var div := Recip(p.w);
    Vec4(p.x * div, p.y * div, p.z, p.w)
  }

  function Project(m: Matrix4x4, v: Vec4): Vec4 {
    Homogenize(ApplyPost(m, v))
  }

  /** _transformToScreenSpace on one vertex: x in [-1, 1] is mapped onto
      [0, clipX] and y in [-1, 1] onto [0, clipY]; z and w are kept. */
  function ToScreen(v: Vec4, s: Screen): (r: Vec4)
    ensures r.z == v.z && r.w == v.w
    ensures v.x == -1.0 ==> r.x == 0.0
    ensures v.x == 1.0 ==> r.x == s.ClipX() as real
    ensures v.y == -1.0 ==> r.y == 0.0
    ensures v.y == 1.0 ==> r.y == s.ClipY() as real
  {
    Vec4(ScreenAxis(v.x, s.ClipX()), ScreenAxis(v.y, s.ClipY()), v.z, v.w)
  }

  /** One axis of the screen transform: [-1, 1] stretched onto [0, clip]. */
  function ScreenAxis(t: real, clip: int): real {
    (t + 1.0) * (clip as real / 2.0)
  }

  /** On a screen of at least one pixel the transform is monotone, so the
      square [-1, 1] x [-1, 1] lands inside the pixel rectangle. */
  lemma ToScreenInRange(v: Vec4, s: Screen)
    requires s.Valid()
    requires -1.0 <= v.x <= 1.0 && -1.0 <= v.y <= 1.0
    ensures 0.0 <= ToScreen(v, s).x <= s.ClipX() as real
    ensures 0.0 <= ToScreen(v, s).y <= s.ClipY() as real
  {
    AxisInRange(v.x, s.ClipX());
    AxisInRange(v.y, s.ClipY());
  }

  /** One axis of the screen transform maps [-1, 1] onto [0, clip]. */
  lemma AxisInRange(t: real, clip: int)
    requires clip >= 0 && -1.0 <= t <= 1.0
    ensures 0.0 <= ScreenAxis(t, clip) <= clip as real
  {
    var h := clip as real / 2.0;
    MulMono(h, t + 1.0, 2.0);
    assert 2.0 * h == clip as real;
  }

  lemma MulMono(c: real, u: real, v: real)
    requires c >= 0.0 && 0.0 <= u <= v
    ensures 0.0 <= u * c <= v * c
  {
  }

  /** The screen transform scales signed areas by (clipX / 2) * (clipY / 2),
      so on a screen wider and taller than one pixel it keeps the winding the
      projected back-face test sees. */
  lemma ToScreenKeepsFacing(v1: Vec4, v2: Vec4, v3: Vec4, s: Screen)
    ensures FaceNormalZ(ToScreen(v1, s), ToScreen(v2, s), ToScreen(v3, s))
         == (s.ClipX() as real / 2.0) * (s.ClipY() as real / 2.0) * FaceNormalZ(v1, v2, v3)
    ensures s.width > 1 && s.height > 1 ==>
      (IsBackFacingProjected(ToScreen(v1, s), ToScreen(v2, s), ToScreen(v3, s)) <==> IsBackFacingProjected(v1, v2, v3))
  {
    var hx, hy := s.ClipX() as real / 2.0, s.ClipY() as real / 2.0;
    var a, b, c := ToScreen(v1, s), ToScreen(v2, s), ToScreen(v3, s);
    assert b.x - a.x == (v2.x - v1.x) * hx;
    assert c.x - a.x == (v3.x - v1.x) * hx;
    assert b.y - a.y == (v2.y - v1.y) * hy;
    assert c.y - a.y == (v3.y - v1.y) * hy;
    var f := FaceNormalZ(v1, v2, v3);
    assert FaceNormalZ(a, b, c) == hx * hy * f;
    if s.width > 1 && s.height > 1 {
      assert hx * hy > 0.0;
      SignOfProduct(hx * hy, f);
    }
  }

  lemma SignOfProduct(k: real, f: real)
    requires k > 0.0
    ensures k * f < 0.0 <==> f < 0.0
  {
    if f < 0.0 {
      assert k * f < 0.0;
    } else {
      assert k * f >= 0.0;
    }
  }

  /** _projectionTransform: every vertex multiplied by the matrix, then divided by its w. */
  method ProjectionTransform(vertices: array<Vec4>, m: Matrix4x4)
    modifies vertices
    ensures forall i :: 0 <= i < vertices.Length ==> vertices[i] == Project(m, old(vertices[i]))
  {
    for i := 0 to vertices.Length
      invariant forall k :: 0 <= k < i ==> vertices[k] == Project(m, old(vertices[k]))
      invariant forall k :: i <= k < vertices.Length ==> vertices[k] == old(vertices[k])
    {
      vertices[i] := Project(m, vertices[i]);
    }
  }

  /** _transformToScreenSpace: every vertex mapped to pixel coordinates. */
  method TransformToScreenSpace(vertices: array<Vec4>, s: Screen)
    modifies vertices
    ensures forall i :: 0 <= i < vertices.Length ==> vertices[i] == ToScreen(old(vertices[i]), s)
  {
    for i := 0 to vertices.Length
      invariant forall k :: 0 <= k < i ==> vertices[k] == ToScreen(old(vertices[k]), s)
      invariant forall k :: i <= k < vertices.Length ==> vertices[k] == old(vertices[k])
    {
      vertices[i] := ToScreen(vertices[i], s);
    }
  }

  // ---------------------------------------------------------------------
  // Near-plane clipping.
  // ---------------------------------------------------------------------

  /** The index lists _categorizeVertices fills: a vertex is inside when it
      lies on or beyond the near plane (z <= cameraNear, cameraNear = -near). */
  datatype Partition = Partition(outside: seq<nat>, inside: seq<nat>)

  /** The indices below n whose vertex is inside (z <= cameraNear) when
      inside holds, outside otherwise, in increasing order. */
  function Select(vs: seq<Vec4>, cameraNear: real, n: nat, inside: bool): seq<nat>
    requires n <= |vs|
  {
    if n == 0 then []
    else Select(vs, cameraNear, n - 1, inside) + (if (vs[n - 1].z <= cameraNear) == inside then [n - 1] else [])
  }

  /** _categorizeVertices as a function of the first three vertices. */
  function Categorize(vs: seq<Vec4>, cameraNear: real): Partition
    requires |vs| >= 3
  {
    Partition(Select(vs, cameraNear, 3, false), Select(vs, cameraNear, 3, true))
  }

  predicate Increasing(s: seq<nat>) {
    forall j, k :: 0 <= j < k < |s| ==> s[j] < s[k]
  }

  /** outside and inside split the indices 0, 1, 2 between them, each list in increasing order. */
  predicate SplitsThree(p: Partition) {
    |p.outside| + |p.inside| == 3 && Increasing(p.outside) && Increasing(p.inside) &&
    (forall k :: 0 <= k < |p.outside| ==> p.outside[k] < 3) &&
    (forall k :: 0 <= k < |p.inside| ==> p.inside[k] < 3) &&
    (forall j, k :: 0 <= j < |p.outside| && 0 <= k < |p.inside| ==> p.outside[j] != p.inside[k])
  }

  /** The split is by the near plane: inside exactly when z <= cameraNear. */
  predicate IsPartition(vs: seq<Vec4>, cameraNear: real, p: Partition)
    requires |vs| >= 3
  {
    SplitsThree(p) &&
    (forall k :: 0 <= k < |p.outside| ==> p.outside[k] < 3 && vs[p.outside[k]].z > cameraNear) &&
    (forall k :: 0 <= k < |p.inside| ==> p.inside[k] < 3 && vs[p.inside[k]].z <= cameraNear)
  }

  lemma {:induction false} SelectSorted(vs: seq<Vec4>, cameraNear: real, n: nat, inside: bool)
    requires n <= |vs|
    ensures var s := Select(vs, cameraNear, n, inside);
      Increasing(s) && |s| <= n &&
      forall k :: 0 <= k < |s| ==> s[k] < n && (vs[s[k]].z <= cameraNear) == inside
  {
    if n > 0 {
      SelectSorted(vs, cameraNear, n - 1, inside);
    }
  }

  lemma {:induction false} SelectCounts(vs: seq<Vec4>, cameraNear: real, n: nat)
    requires n <= |vs|
    ensures |Select(vs, cameraNear, n, false)| + |Select(vs, cameraNear, n, true)| == n
  {
    if n > 0 {
      SelectCounts(vs, cameraNear, n - 1);
    }
  }

  lemma CategorizeIsPartition(vs: seq<Vec4>, cameraNear: real)
    requires |vs| >= 3
    ensures IsPartition(vs, cameraNear, Categorize(vs, cameraNear))
  {
    SelectSorted(vs, cameraNear, 3, false);
    SelectSorted(vs, cameraNear, 3, true);
    SelectCounts(vs, cameraNear, 3);
  }

  /** _categorizeVertices, with its loop over the first three vertices. */
  method CategorizeVertices(vs: seq<Vec4>, cameraNear: real) returns (outside: seq<nat>, inside: seq<nat>)
    requires |vs| >= 3
    ensures IsPartition(vs, cameraNear, Partition(outside, inside))
    ensures Partition(outside, inside) == Categorize(vs, cameraNear)
  {
    outside, inside := [], [];
    for i := 0 to 3
      invariant outside == Select(vs, cameraNear, i, false)
      invariant inside == Select(vs, cameraNear, i, true)
    {
      if vs[i].z <= cameraNear {
        inside := inside + [i];
      } else {
        outside := outside + [i];
      }
    }
    CategorizeIsPartition(vs, cameraNear);
  }

  /** _calculateIntersectionRatio: the fraction of the way from origin to
      target at which the segment meets the near plane z = -near. */
  function IntersectionRatio(origin: Vec4, target: Vec4, near: real): (r: real)
    requires origin.z != target.z
    ensures origin.z + r * (target.z - origin.z) == -near
  {
    (origin.z + near) / (origin.z - target.z)
  }

  /** From a vertex in front of the near plane to one beyond it, the crossing
      lies in (0, 1]: strictly after the origin, at the latest at the target. */
  lemma RatioInUnitInterval(origin: Vec4, target: Vec4, near: real)
    requires origin.z > -near >= target.z
    ensures 0.0 < IntersectionRatio(origin, target, near) <= 1.0
  {
    var a, d := origin.z + near, origin.z - target.z;
    assert 0.0 < a <= d;
    QuotientAtMostOne(a, d);
  }

  lemma QuotientAtMostOne(a: real, d: real)
    requires 0.0 < a <= d
    ensures 0.0 < a / d <= 1.0
  {
    var q := a / d;
    assert q * d == a;
    assert (q - 1.0) * d == q * d - d;
    PositiveFactor(q - 1.0, d);
  }

  lemma PositiveFactor(x: real, y: real)
    requires y > 0.0
    ensures x > 0.0 ==> x * y > 0.0
  {
  }

  /** The point where the segment from origin to target meets the near plane;
      it keeps the origin's w. */
  function NearPlanePoint(origin: Vec4, target: Vec4, near: real): (p: Vec4)
    requires origin.z != target.z
    ensures p.z == -near && p.w == origin.w
  {
    var r := IntersectionRatio(origin, target, near);
    Vec4(origin.x + r * (target.x - origin.x), origin.y + r * (target.y - origin.y),
         origin.z + r * (target.z - origin.z), origin.w)
  }

  /** The vertex list after the clipping switch, with the categorisation it came from. */
  datatype Clipped = Clipped(vertices: seq<Vec4>, outside: seq<nat>, inside: seq<nat>)

  /** The switch on the number of outside vertices in _createTrianglesForEntity.
      None: all three vertices are in front of the near plane and the triangle
      is skipped. One outside vertex: it is moved to the plane along its edge
      to the first inside vertex, and the crossing on its edge to the second
      inside vertex is appended (with w = 1). Two outside vertices: each is
      moved to the plane along its edge to the inside vertex. */
  function ClipNearPlane(vs: seq<Vec4>, near: real): (c: Option<Clipped>)
    requires |vs| == 3
    ensures c.None? <==> (forall i :: 0 <= i < 3 ==> vs[i].z > -near)
    ensures c.None? <==> |Categorize(vs, -near).outside| == 3
    ensures c.Some? ==>
      Partition(c.value.outside, c.value.inside) == Categorize(vs, -near) &&
      IsPartition(vs, -near, Partition(c.value.outside, c.value.inside)) &&
      |c.value.vertices| == (if |c.value.outside| == 1 then 4 else 3)
  {
    CategorizeIsPartition(vs, -near);
    ShapeThree(vs, -near, Categorize(vs, -near));
    ClipWith(vs, near, Categorize(vs, -near))
  }

  /** The switch on a given split of the three vertices by the near plane. */
  function ClipWith(vs: seq<Vec4>, near: real, p: Partition): (c: Option<Clipped>)
    requires |vs| == 3 && IsPartition(vs, -near, p)
    ensures c.None? <==> (forall i :: 0 <= i < 3 ==> vs[i].z > -near)
    ensures c.Some? ==>
      c.value.outside == p.outside && c.value.inside == p.inside &&
      |c.value.vertices| == (if |p.outside| == 1 then 4 else 3)
  {
    ShapeThree(vs, -near, p);
    if |p.outside| == 0 then Some(Clipped(vs, p.outside, p.inside))
    else if |p.outside| == 1 then
      ShapeOne(vs, -near, p);
      Some(Clipped(ClipOneOutside(vs, near, p.outside[0], p.inside[0], p.inside[1]), p.outside, p.inside))
    else if |p.outside| == 2 then
      ShapeTwo(vs, -near, p);
      Some(Clipped(ClipTwoOutside(vs, near, p.outside[0], p.outside[1], p.inside[0]), p.outside, p.inside))
    else None
  }

  /** After the switch every vertex lies on or beyond the near plane: those
      already beyond it are unchanged, the others were moved onto it. */
  lemma ClippedOnPlane(vs: seq<Vec4>, near: real)
    requires |vs| == 3
    ensures var c := ClipNearPlane(vs, near);
      c.Some? ==>
        (forall i :: 0 <= i < |c.value.vertices| ==> c.value.vertices[i].z <= -near) &&
        (forall i :: 0 <= i < 3 ==> if vs[i].z <= -near then c.value.vertices[i] == vs[i] else c.value.vertices[i].z == -near)
  {
    var p := Categorize(vs, -near);
    CategorizeIsPartition(vs, -near);
    ShapeThree(vs, -near, p);
    if |p.outside| == 0 {
      ShapeZero(vs, -near, p);
    } else if |p.outside| == 1 {
      ShapeOne(vs, -near, p);
    } else if |p.outside| == 2 {
      ShapeTwo(vs, -near, p);
    }
  }

  /** The shapes a split can take, one lemma for each arm of the switch. */
  lemma ShapeZero(vs: seq<Vec4>, cameraNear: real, p: Partition)
    requires |vs| >= 3 && IsPartition(vs, cameraNear, p) && |p.outside| == 0
    ensures forall i :: 0 <= i < 3 ==> vs[i].z <= cameraNear
  {
    var n := p.inside;
    assert n[0] < n[1] < n[2];
    assert n[0] == 0 && n[1] == 1 && n[2] == 2;
  }

  lemma ShapeOne(vs: seq<Vec4>, cameraNear: real, p: Partition)
    requires |vs| >= 3 && IsPartition(vs, cameraNear, p) && |p.outside| == 1
    ensures var o, n := p.outside, p.inside;
      |n| == 2 && o[0] < 3 && n[0] < 3 && n[1] < 3 && o[0] != n[0] && o[0] != n[1] && n[0] != n[1] &&
                    vs[o[0]].z > cameraNear >= vs[n[0]].z && cameraNear >= vs[n[1]].z
  {
    assert p.inside[0] < p.inside[1];
  }

  lemma ShapeTwo(vs: seq<Vec4>, cameraNear: real, p: Partition)
    requires |vs| >= 3 && IsPartition(vs, cameraNear, p) && |p.outside| == 2
    ensures var o, n := p.outside, p.inside;
      |n| == 1 && o[0] < 3 && o[1] < 3 && n[0] < 3 && o[0] != n[0] && o[1] != n[0] && o[0] != o[1] &&
                    vs[o[0]].z > cameraNear >= vs[n[0]].z && vs[o[1]].z > cameraNear
  {
    assert p.outside[0] < p.outside[1];
  }

  lemma ShapeThree(vs: seq<Vec4>, cameraNear: real, p: Partition)
    requires |vs| >= 3 && IsPartition(vs, cameraNear, p)
    ensures |p.outside| <= 3
    ensures |p.outside| == 3 <==> forall i :: 0 <= i < 3 ==> vs[i].z > cameraNear
  {
    var o, n := p.outside, p.inside;
    if |o| == 3 {
      assert o[0] < o[1] < o[2];
      assert o[0] == 0 && o[1] == 1 && o[2] == 2;
    } else {
      assert vs[n[0]].z <= cameraNear;
    }
  }

  /** Case 1 of the switch: vertex o is in front of the plane, i0 and i1 beyond it. */
  function ClipOneOutside(vs: seq<Vec4>, near: real, o: nat, i0: nat, i1: nat): (r: seq<Vec4>)
    requires |vs| == 3 && o < 3 && i0 < 3 && i1 < 3 && o != i0 && o != i1 && i0 != i1
    requires vs[o].z > -near >= vs[i0].z && -near >= vs[i1].z
    ensures |r| == 4 && r[i0] == vs[i0] && r[i1] == vs[i1]
    ensures r[o].z == -near && r[3].z == -near
    ensures forall i :: 0 <= i < 4 ==> r[i].z <= -near
    ensures forall i :: 0 <= i < 3 ==> if vs[i].z <= -near then r[i] == vs[i] else r[i].z == -near
  {
    var origin := vs[o];
    var newV1 := NearPlanePoint(origin, vs[i0], near);
    var newV2 := NearPlanePoint(origin, vs[i1], near).(w := 1.0);
    vs[o := newV1] + [newV2]
  }

  /** Case 2 of the switch: vertices o0 and o1 are in front of the plane, t beyond it. */
  function ClipTwoOutside(vs: seq<Vec4>, near: real, o0: nat, o1: nat, t: nat): (r: seq<Vec4>)
    requires |vs| == 3 && o0 < 3 && o1 < 3 && t < 3 && o0 != t && o1 != t && o0 != o1
    requires vs[o0].z > -near >= vs[t].z && vs[o1].z > -near
    ensures |r| == 3 && r[t] == vs[t]
    ensures r[o0].z == -near && r[o1].z == -near
    ensures forall i :: 0 <= i < 3 ==> r[i].z <= -near
    ensures forall i :: 0 <= i < 3 ==> if vs[i].z <= -near then r[i] == vs[i] else r[i].z == -near
  {
    var target := vs[t];
    vs[o0 := NearPlanePoint(vs[o0], target, near)][o1 := NearPlanePoint(vs[o1], target, near)]
  }

  // ---------------------------------------------------------------------
  // Re-triangulation.
  // ---------------------------------------------------------------------

  predicate HasVertex(t: Triangle, v: Vec4) {
    t.v1 == v || t.v2 == v || t.v3 == v
  }

  /** The shapes _createTriangles is called with: three vertices, or four
      after exactly one vertex was clipped. */
  predicate Triangulable(c: Clipped) {
    SplitsThree(Partition(c.outside, c.inside)) &&
    (|c.vertices| == 3 || (|c.vertices| == 4 && |c.outside| == 1))
  }

  /** _createTriangles: the quadrilateral left by clipping one vertex becomes
      two triangles sharing the diagonal from the first inside vertex to the
      appended vertex; otherwise the three vertices form one triangle. The
      triangles use exactly the clipped vertices. */
  function CreateTriangles(c: Clipped): (ts: seq<Triangle>)
    requires Triangulable(c)
    ensures |ts| == |c.vertices| - 2
    ensures forall k :: 0 <= k < |ts| ==>
      ts[k].v1 in c.vertices && ts[k].v2 in c.vertices && ts[k].v3 in c.vertices
    ensures forall i :: 0 <= i < |c.vertices| ==> HasVertex(ts[0], c.vertices[i]) || HasVertex(ts[|ts| - 1], c.vertices[i])
  {
    var v := c.vertices;
    if |v| == 4 then
      assert c.outside == [c.outside[0]] && c.inside == [c.inside[0], c.inside[1]];
      [Triangle(v[c.outside[0]], v[c.inside[0]], v[3]), Triangle(v[3], v[c.inside[0]], v[c.inside[1]])]
    else
      [Triangle(v[0], v[1], v[2])]
  }

  // ---------------------------------------------------------------------
  // Areas: the triangles cover what is left of the clipped triangle.
  // ---------------------------------------------------------------------

  datatype Vec3 = Vec3(x: real, y: real, z: real)

  function Add3(a: Vec3, b: Vec3): Vec3 { Vec3(a.x + b.x, a.y + b.y, a.z + b.z) }

  function Scale3(k: real, a: Vec3): Vec3 { Vec3(k * a.x, k * a.y, k * a.z) }

  /** Twice the signed area of the triangle (p, q, r) in a plane of two coordinates. */
  function Shoelace(px: real, py: real, qx: real, qy: real, rx: real, ry: real): real {
    (qx - px) * (ry - py) - (qy - py) * (rx - px)
  }

  /** Twice the signed area of the triangle (a, b, c) as a vector, the cross
      product (b - a) x (c - a) of the x, y and z coordinates: each component
      is the signed area of the triangle's shadow on one coordinate plane. */
  function AreaVector(a: Vec4, b: Vec4, c: Vec4): Vec3 {
    Vec3(Shoelace(a.y, a.z, b.y, b.z, c.y, c.z), Shoelace(a.z, a.x, b.z, b.x, c.z, c.x),
         Shoelace(a.x, a.y, b.x, b.y, c.x, c.y))
  }

  function TriangleArea(t: Triangle): Vec3 { AreaVector(t.v1, t.v2, t.v3) }

  /** The signed area of the quadrilateral a, b, c, d, split along the diagonal a-c. */
  function QuadArea(a: Vec4, b: Vec4, c: Vec4, d: Vec4): Vec3 {
    Add3(AreaVector(a, b, c), AreaVector(a, c, d))
  }

  /** The area of a quadrilateral does not depend on the diagonal it is split along. */
  lemma ShoelaceOtherDiagonal(px: real, py: real, qx: real, qy: real, cx: real, cy: real, dx: real, dy: real)
    ensures Shoelace(px, py, qx, qy, dx, dy) + Shoelace(dx, dy, qx, qy, cx, cy) ==
            Shoelace(px, py, qx, qy, cx, cy) + Shoelace(px, py, cx, cy, dx, dy)
  {
    assert Shoelace(dx, dy, qx, qy, cx, cy) ==
      (qx * cy - qy * cx) + (cx * dy - cy * dx) + (dx * qy - dy * qx);
    assert Shoelace(px, py, qx, qy, dx, dy) ==
      (px * qy - py * qx) + (qx * dy - qy * dx) + (dx * py - dy * px);
    assert Shoelace(px, py, qx, qy, cx, cy) ==
      (px * qy - py * qx) + (qx * cy - qy * cx) + (cx * py - cy * px);
    assert Shoelace(px, py, cx, cy, dx, dy) ==
      (px * cy - py * cx) + (cx * dy - cy * dx) + (dx * py - dy * px);
  }

  /** CreateTriangles on four vertices: the two triangles share the diagonal
      from the first inside vertex to the appended vertex and together have
      the signed area of the quadrilateral outside vertex, first inside
      vertex, second inside vertex, appended vertex. On three vertices the
      one triangle is the clipped triangle itself. */
  lemma TrianglesTileClipped(c: Clipped)
    requires Triangulable(c)
    ensures var v, ts := c.vertices, CreateTriangles(c);
      (|v| == 3 ==> ts == [Triangle(v[0], v[1], v[2])]) &&
      (|v| == 4 ==>
        var o, i0, i1 := c.outside[0], c.inside[0], c.inside[1];
        ts[0].v2 == v[i0] && ts[0].v3 == v[3] && ts[1].v1 == v[3] && ts[1].v2 == v[i0] &&
        ts[0].v1 == v[o] && ts[1].v3 == v[i1] &&
        Add3(TriangleArea(ts[0]), TriangleArea(ts[1])) == QuadArea(v[o], v[i0], v[i1], v[3]))
  {
    var v := c.vertices;
    if |v| == 4 {
      var o, i0, i1 := c.outside[0], c.inside[0], c.inside[1];
      var a, b, cc, d := v[o], v[i0], v[i1], v[3];
      ShoelaceOtherDiagonal(a.y, a.z, b.y, b.z, cc.y, cc.z, d.y, d.z);
      ShoelaceOtherDiagonal(a.z, a.x, b.z, b.x, cc.z, cc.x, d.z, d.x);
      ShoelaceOtherDiagonal(a.x, a.y, b.x, b.y, cc.x, cc.y, d.x, d.y);
    }
  }

  /** Cutting the corner o off the triangle (o, p, q) at p0 = o + r0 (p - o)
      and p1 = o + r1 (q - o) leaves the quadrilateral p0, p, q, p1 with
      1 - r0 r1 of the triangle's signed area. */
  lemma ShoelaceCutCorner(ox: real, oy: real, px: real, py: real, qx: real, qy: real, r0: real, r1: real,
                          p0x: real, p0y: real, p1x: real, p1y: real)
    requires p0x == ox + r0 * (px - ox) && p0y == oy + r0 * (py - oy)
    requires p1x == ox + r1 * (qx - ox) && p1y == oy + r1 * (qy - oy)
    ensures Shoelace(p0x, p0y, px, py, qx, qy) + Shoelace(p0x, p0y, qx, qy, p1x, p1y) ==
      (1.0 - r0 * r1) * Shoelace(ox, oy, px, py, qx, qy)
  {
    var ux, uy, vx, vy := px - ox, py - oy, qx - ox, qy - oy;
    var k := ux * vy - uy * vx;
    assert Shoelace(ox, oy, px, py, qx, qy) == k;
    assert Shoelace(p0x, p0y, px, py, qx, qy) == (1.0 - r0) * k;
    assert Shoelace(p0x, p0y, qx, qy, p1x, p1y) ==
      (vx - r0 * ux) * (r1 * vy - r0 * uy) - (vy - r0 * uy) * (r1 * vx - r0 * ux);
    assert (vx - r0 * ux) * (r1 * vy - r0 * uy) - (vy - r0 * uy) * (r1 * vx - r0 * ux) == r0 * (1.0 - r1) * k;
  }

  /** Moving the corners p and q of the triangle (t, p, q) towards t by the
      fractions rp and rq scales its signed area by (1 - rp)(1 - rq). */
  lemma ShoelaceShrink(tx: real, ty: real, px: real, py: real, qx: real, qy: real, rp: real, rq: real,
                       px': real, py': real, qx': real, qy': real)
    requires px' == px + rp * (tx - px) && py' == py + rp * (ty - py)
    requires qx' == qx + rq * (tx - qx) && qy' == qy + rq * (ty - qy)
    ensures Shoelace(tx, ty, px', py', qx', qy') == (1.0 - rp) * (1.0 - rq) * Shoelace(tx, ty, px, py, qx, qy)
  {
    var ux, uy, vx, vy := px - tx, py - ty, qx - tx, qy - ty;
    assert px' - tx == (1.0 - rp) * ux;
    assert py' - ty == (1.0 - rp) * uy;
    assert qx' - tx == (1.0 - rq) * vx;
    assert qy' - ty == (1.0 - rq) * vy;
    assert ((1.0 - rp) * ux) * ((1.0 - rq) * vy) - ((1.0 - rp) * uy) * ((1.0 - rq) * vx) ==
      (1.0 - rp) * (1.0 - rq) * (ux * vy - uy * vx);
  }

  /** Cutting a corner, one component of the area vector at a time (each
      component only sees the two coordinates it is made of). */
  lemma CutCornerX(o: Vec4, a: Vec4, b: Vec4, p0: Vec4, p1: Vec4, r0: real, r1: real)
    requires p0.y == o.y + r0 * (a.y - o.y) && p0.z == o.z + r0 * (a.z - o.z)
    requires p1.y == o.y + r1 * (b.y - o.y) && p1.z == o.z + r1 * (b.z - o.z)
    ensures QuadArea(p0, a, b, p1).x == (1.0 - r0 * r1) * AreaVector(o, a, b).x
  {
    ShoelaceCutCorner(o.y, o.z, a.y, a.z, b.y, b.z, r0, r1, p0.y, p0.z, p1.y, p1.z);
  }

  lemma CutCornerY(o: Vec4, a: Vec4, b: Vec4, p0: Vec4, p1: Vec4, r0: real, r1: real)
    requires p0.z == o.z + r0 * (a.z - o.z) && p0.x == o.x + r0 * (a.x - o.x)
    requires p1.z == o.z + r1 * (b.z - o.z) && p1.x == o.x + r1 * (b.x - o.x)
    ensures QuadArea(p0, a, b, p1).y == (1.0 - r0 * r1) * AreaVector(o, a, b).y
  {
    ShoelaceCutCorner(o.z, o.x, a.z, a.x, b.z, b.x, r0, r1, p0.z, p0.x, p1.z, p1.x);
  }

  lemma CutCornerZ(o: Vec4, a: Vec4, b: Vec4, p0: Vec4, p1: Vec4, r0: real, r1: real)
    requires p0.x == o.x + r0 * (a.x - o.x) && p0.y == o.y + r0 * (a.y - o.y)
    requires p1.x == o.x + r1 * (b.x - o.x) && p1.y == o.y + r1 * (b.y - o.y)
    ensures QuadArea(p0, a, b, p1).z == (1.0 - r0 * r1) * AreaVector(o, a, b).z
  {
    ShoelaceCutCorner(o.x, o.y, a.x, a.y, b.x, b.y, r0, r1, p0.x, p0.y, p1.x, p1.y);
  }

  /** The same for the signed area vectors of points in space: cutting the
      corner o off (o, a, b) at p0 on o-a and p1 on o-b. */
  lemma CutCornerArea(o: Vec4, a: Vec4, b: Vec4, p0: Vec4, p1: Vec4, r0: real, r1: real)
    requires p0.x == o.x + r0 * (a.x - o.x) && p0.y == o.y + r0 * (a.y - o.y) && p0.z == o.z + r0 * (a.z - o.z)
    requires p1.x == o.x + r1 * (b.x - o.x) && p1.y == o.y + r1 * (b.y - o.y) && p1.z == o.z + r1 * (b.z - o.z)
    ensures QuadArea(p0, a, b, p1) == Scale3(1.0 - r0 * r1, AreaVector(o, a, b))
  {
    CutCornerX(o, a, b, p0, p1, r0, r1);
    CutCornerY(o, a, b, p0, p1, r0, r1);
    CutCornerZ(o, a, b, p0, p1, r0, r1);
  }

  /** Shrinking towards a corner, one component of the area vector at a time. */
  lemma ShrinkX(t: Vec4, p: Vec4, q: Vec4, p': Vec4, q': Vec4, rp: real, rq: real)
    requires p'.y == p.y + rp * (t.y - p.y) && p'.z == p.z + rp * (t.z - p.z)
    requires q'.y == q.y + rq * (t.y - q.y) && q'.z == q.z + rq * (t.z - q.z)
    ensures AreaVector(t, p', q').x == (1.0 - rp) * (1.0 - rq) * AreaVector(t, p, q).x
  {
    ShoelaceShrink(t.y, t.z, p.y, p.z, q.y, q.z, rp, rq, p'.y, p'.z, q'.y, q'.z);
  }

  lemma ShrinkY(t: Vec4, p: Vec4, q: Vec4, p': Vec4, q': Vec4, rp: real, rq: real)
    requires p'.z == p.z + rp * (t.z - p.z) && p'.x == p.x + rp * (t.x - p.x)
    requires q'.z == q.z + rq * (t.z - q.z) && q'.x == q.x + rq * (t.x - q.x)
    ensures AreaVector(t, p', q').y == (1.0 - rp) * (1.0 - rq) * AreaVector(t, p, q).y
  {
    ShoelaceShrink(t.z, t.x, p.z, p.x, q.z, q.x, rp, rq, p'.z, p'.x, q'.z, q'.x);
  }

  lemma ShrinkZ(t: Vec4, p: Vec4, q: Vec4, p': Vec4, q': Vec4, rp: real, rq: real)
    requires p'.x == p.x + rp * (t.x - p.x) && p'.y == p.y + rp * (t.y - p.y)
    requires q'.x == q.x + rq * (t.x - q.x) && q'.y == q.y + rq * (t.y - q.y)
    ensures AreaVector(t, p', q').z == (1.0 - rp) * (1.0 - rq) * AreaVector(t, p, q).z
  {
    ShoelaceShrink(t.x, t.y, p.x, p.y, q.x, q.y, rp, rq, p'.x, p'.y, q'.x, q'.y);
  }

  /** Moving p and q of (t, p, q) towards t scales the area vector. */
  lemma ShrinkArea(t: Vec4, p: Vec4, q: Vec4, p': Vec4, q': Vec4, rp: real, rq: real)
    requires p'.x == p.x + rp * (t.x - p.x) && p'.y == p.y + rp * (t.y - p.y) && p'.z == p.z + rp * (t.z - p.z)
    requires q'.x == q.x + rq * (t.x - q.x) && q'.y == q.y + rq * (t.y - q.y) && q'.z == q.z + rq * (t.z - q.z)
    ensures AreaVector(t, p', q') == Scale3((1.0 - rp) * (1.0 - rq), AreaVector(t, p, q))
  {
    ShrinkX(t, p, q, p', q', rp, rq);
    ShrinkY(t, p, q, p', q', rp, rq);
    ShrinkZ(t, p, q, p', q', rp, rq);
  }

  /** One vertex in front of the plane: the quadrilateral the clipping leaves
      (moved vertex, first and second inside vertex, appended vertex) has
      1 - r0 r1 of the signed area of the triangle (o, i0, i1), where r0 and r1
      are the ratios at which the edges from o to i0 and to i1 meet the plane. */
  lemma ClipOneOutsideArea(vs: seq<Vec4>, near: real, o: nat, i0: nat, i1: nat)
    requires |vs| == 3 && o < 3 && i0 < 3 && i1 < 3 && o != i0 && o != i1 && i0 != i1
    requires vs[o].z > -near >= vs[i0].z && -near >= vs[i1].z
    ensures var r := ClipOneOutside(vs, near, o, i0, i1);
      var r0, r1 := IntersectionRatio(vs[o], vs[i0], near), IntersectionRatio(vs[o], vs[i1], near);
      QuadArea(r[o], r[i0], r[i1], r[3]) == Scale3(1.0 - r0 * r1, AreaVector(vs[o], vs[i0], vs[i1]))
  {
    var r := ClipOneOutside(vs, near, o, i0, i1);
    assert r[o] == NearPlanePoint(vs[o], vs[i0], near) && r[3] == NearPlanePoint(vs[o], vs[i1], near).(w := 1.0);
    NearPlanePointMoves(vs[o], vs[i0], near);
    NearPlanePointMoves(vs[o], vs[i1], near);
    CutCornerAreaBy(vs[o], vs[i0], vs[i1], NearPlanePoint(vs[o], vs[i0], near), NearPlanePoint(vs[o], vs[i1], near).(w := 1.0), IntersectionRatio(vs[o], vs[i0], near),
      IntersectionRatio(vs[o], vs[i1], near), 1.0 - IntersectionRatio(vs[o], vs[i0], near) * IntersectionRatio(vs[o], vs[i1], near));
  }

  /** The near-plane point moves each coordinate of the origin by the crossing
      ratio towards the target. */
  lemma NearPlanePointMoves(origin: Vec4, target: Vec4, near: real)
    requires origin.z != target.z
    ensures var p, r := NearPlanePoint(origin, target, near), IntersectionRatio(origin, target, near);
      p.x == origin.x + r * (target.x - origin.x) && p.y == origin.y + r * (target.y - origin.y) &&
      p.z == origin.z + r * (target.z - origin.z)
  {
  }

  /** CutCornerArea with the scale factor k = 1 - r0 * r1 passed in. */
  lemma CutCornerAreaBy(o: Vec4, a: Vec4, b: Vec4, p0: Vec4, p1: Vec4, r0: real, r1: real, k: real)
    requires k == 1.0 - r0 * r1
    requires p0.x == o.x + r0 * (a.x - o.x) && p0.y == o.y + r0 * (a.y - o.y) && p0.z == o.z + r0 * (a.z - o.z)
    requires p1.x == o.x + r1 * (b.x - o.x) && p1.y == o.y + r1 * (b.y - o.y) && p1.z == o.z + r1 * (b.z - o.z)
    ensures QuadArea(p0, a, b, p1) == Scale3(k, AreaVector(o, a, b))
  {
    CutCornerArea(o, a, b, p0, p1, r0, r1);
  }

  /** Two vertices in front of the plane: each is moved towards the inside
      vertex t by the ratio of its edge, so the clipped triangle keeps the
      orientation and (1 - r0)(1 - r1) of the signed area of the original. */
  lemma ClipTwoOutsideArea(vs: seq<Vec4>, near: real, o0: nat, o1: nat, t: nat)
    requires |vs| == 3 && o0 < 3 && o1 < 3 && t < 3 && o0 != t && o1 != t && o0 != o1
    requires vs[o0].z > -near >= vs[t].z && vs[o1].z > -near
    ensures var r := ClipTwoOutside(vs, near, o0, o1, t);
      var r0, r1 := IntersectionRatio(vs[o0], vs[t], near), IntersectionRatio(vs[o1], vs[t], near);
      AreaVector(r[0], r[1], r[2]) == Scale3((1.0 - r0) * (1.0 - r1), AreaVector(vs[0], vs[1], vs[2]))
  {
    var r := ClipTwoOutside(vs, near, o0, o1, t);
    MovedTowardsArea(vs, r, near, o0, o1, t);
  }

  /** The area part of ClipTwoOutsideArea, for any list r that keeps vs[t]
      and moves vs[o0] and vs[o1] to the near plane along their edges to it. */
  lemma MovedTowardsArea(vs: seq<Vec4>, r: seq<Vec4>, near: real, o0: nat, o1: nat, t: nat)
    requires |vs| == 3 && |r| == 3 && o0 < 3 && o1 < 3 && t < 3 && o0 != t && o1 != t && o0 != o1
    requires vs[o0].z != vs[t].z && vs[o1].z != vs[t].z
    requires r[t] == vs[t] && r[o0] == NearPlanePoint(vs[o0], vs[t], near) && r[o1] == NearPlanePoint(vs[o1], vs[t], near)
    ensures AreaVector(r[0], r[1], r[2]) ==
      Scale3((1.0 - IntersectionRatio(vs[o0], vs[t], near)) * (1.0 - IntersectionRatio(vs[o1], vs[t], near)),
             AreaVector(vs[0], vs[1], vs[2]))
  {
    MovedTowardsAreaBy(vs, r, o0, o1, t, IntersectionRatio(vs[o0], vs[t], near), IntersectionRatio(vs[o1], vs[t], near),
      (1.0 - IntersectionRatio(vs[o0], vs[t], near)) * (1.0 - IntersectionRatio(vs[o1], vs[t], near)));
  }

  /** MovedTowardsArea for any ratios r0 and r1 the two points moved by;
      k is the factor they scale the area by. */
  lemma MovedTowardsAreaBy(vs: seq<Vec4>, r: seq<Vec4>, o0: nat, o1: nat, t: nat, r0: real, r1: real, k: real)
    requires |vs| == 3 && |r| == 3 && o0 < 3 && o1 < 3 && t < 3 && o0 != t && o1 != t && o0 != o1
    requires k == (1.0 - r0) * (1.0 - r1)
    requires r[t] == vs[t]
    requires r[o0].x == vs[o0].x + r0 * (vs[t].x - vs[o0].x) && r[o0].y == vs[o0].y + r0 * (vs[t].y - vs[o0].y) &&
             r[o0].z == vs[o0].z + r0 * (vs[t].z - vs[o0].z)
    requires r[o1].x == vs[o1].x + r1 * (vs[t].x - vs[o1].x) && r[o1].y == vs[o1].y + r1 * (vs[t].y - vs[o1].y) &&
             r[o1].z == vs[o1].z + r1 * (vs[t].z - vs[o1].z)
    ensures AreaVector(r[0], r[1], r[2]) == Scale3(k, AreaVector(vs[0], vs[1], vs[2]))
  {
    ShrinkArea(vs[t], vs[o0], vs[o1], r[o0], r[o1], r0, r1);
    RelistScaled(r, vs, t, o0, o1, (1.0 - r0) * (1.0 - r1));
  }

  /** A scaling between two triangles listed in the same order (t, o0, o1)
      holds for them listed in index order too. */
  lemma RelistScaled(r: seq<Vec4>, vs: seq<Vec4>, t: nat, o0: nat, o1: nat, k: real)
    requires |r| == 3 && |vs| == 3 && t < 3 && o0 < 3 && o1 < 3 && t != o0 && t != o1 && o0 != o1
    requires AreaVector(r[t], r[o0], r[o1]) == Scale3(k, AreaVector(vs[t], vs[o0], vs[o1]))
    ensures AreaVector(r[0], r[1], r[2]) == Scale3(k, AreaVector(vs[0], vs[1], vs[2]))
  {
    var sign := if (t, o0, o1) in {(0, 1, 2), (1, 2, 0), (2, 0, 1)} then 1.0 else -1.0;
    ShoelaceRotations(r, t, o0, o1);
    ShoelaceRotations(vs, t, o0, o1);
    UnscaleBoth(AreaVector(r[t], r[o0], r[o1]), AreaVector(vs[t], vs[o0], vs[o1]),
                AreaVector(r[0], r[1], r[2]), AreaVector(vs[0], vs[1], vs[2]), sign, k);
  }

  /** Relisting a triangle flips the sign of its area vector or not; a common
      factor then carries over. */
  lemma UnscaleBoth(u: Vec3, v: Vec3, u': Vec3, v': Vec3, sign: real, k: real)
    requires sign == 1.0 || sign == -1.0
    requires u == Scale3(sign, u') && v == Scale3(sign, v') && u == Scale3(k, v)
    ensures u' == Scale3(k, v')
  {
    if sign == -1.0 {
      assert u'.x == -u.x && v'.x == -v.x;
      assert u'.y == -u.y && v'.y == -v.y;
      assert u'.z == -u.z && v'.z == -v.z;
    }
  }

  /** The signed area of a triangle listed from the vertex at index t, with
      the other two in the order o0, o1, against its area in index order:
      rotations keep it, a swap negates it. */
  lemma ShoelaceRotations(v: seq<Vec4>, t: nat, o0: nat, o1: nat)
    requires |v| == 3 && t < 3 && o0 < 3 && o1 < 3 && t != o0 && t != o1 && o0 != o1
    ensures AreaVector(v[t], v[o0], v[o1]) ==
      Scale3(if (t, o0, o1) in {(0, 1, 2), (1, 2, 0), (2, 0, 1)} then 1.0 else -1.0, AreaVector(v[0], v[1], v[2]))
  {
    assert v == [v[0], v[1], v[2]];
  }

  // ---------------------------------------------------------------------
  // One occluder triangle, and a whole mesh.
  // ---------------------------------------------------------------------

  /** A clipped view-space vertex taken to pixel coordinates. */
  function ScreenVertex(v: Vec4, proj: Matrix4x4, s: Screen): Vec4 {
    ToScreen(Project(proj, v), s)
  }

  function ScreenVertices(vs: seq<Vec4>, proj: Matrix4x4, s: Screen): (r: seq<Vec4>)
    ensures |r| == |vs|
  {
    seq(|vs|, i requires 0 <= i < |vs| => ScreenVertex(vs[i], proj, s))
  }

  /** What the body of the triangle loop of _createTrianglesForEntity produces
      for the view-space triangle (v1, v2, v3). */
  function OccluderTriangles(v1: Vec4, v2: Vec4, v3: Vec4, proj: Matrix4x4, near: real, s: Screen): seq<Triangle> {
    if IsBackFacingCameraViewSpace(v1, v2, v3) then []
    else match ClipNearPlane([v1, v2, v3], near)
      case None => []
      case Some(c) =>
        CategorizeIsPartition([v1, v2, v3], -near);
        CreateTriangles(c.(vertices := ScreenVertices(c.vertices, proj, s)))
  }

  /** The number of triangles an occluder triangle leaves: none when it faces
      away or lies wholly in front of the near plane, two when exactly one
      vertex is in front of it, one otherwise. */
  lemma OccluderTriangleCount(v1: Vec4, v2: Vec4, v3: Vec4, proj: Matrix4x4, near: real, s: Screen)
    ensures var n := |Categorize([v1, v2, v3], -near).outside|;
      |OccluderTriangles(v1, v2, v3, proj, near, s)| ==
        if IsBackFacingCameraViewSpace(v1, v2, v3) || n == 3 then 0
        else if n == 1 then 2
        else 1
  {
    var vs := [v1, v2, v3];
    var c := ClipNearPlane(vs, near);
    if !IsBackFacingCameraViewSpace(v1, v2, v3) && c.Some? {
      var screened := c.value.(vertices := ScreenVertices(c.value.vertices, proj, s));
      assert |screened.vertices| == |c.value.vertices|;
      assert OccluderTriangles(v1, v2, v3, proj, near, s) == CreateTriangles(screened);
    }
  }

  // ---------------------------------------------------------------------
  // A whole occluder mesh: _createTrianglesForEntity.
  // ---------------------------------------------------------------------

  /** Mesh data the triangle loop can read: whole (x, y, z) positions, whole
      index triples, and every index naming a stored position. */
  predicate ValidMesh(positions: seq<real>, indices: seq<nat>) {
    |positions| % 3 == 0 && |indices| % 3 == 0 && IndicesInRange(positions, indices)
  }

  predicate IndicesInRange(positions: seq<real>, indices: seq<nat>) {
    forall k :: 0 <= k < |indices| ==> 3 * indices[k] + 2 < |positions|
  }

  /** View-space vertex j of a mesh: the position at 3j, 3j+1, 3j+2 multiplied
      by the combined world-view matrix, w set to 1 as the triangle loop does. */
  function ViewVertex(positions: seq<real>, m: Matrix4x4, j: nat): (v: Vec4)
    requires 3 * j + 2 < |positions|
    ensures v.w == 1.0
  {
    var t := ApplyPost(m, Vec4(positions[3 * j], positions[3 * j + 1], positions[3 * j + 2], 1.0));
    Vec4(t.x, t.y, t.z, 1.0)
  }

  /** The triangles the index triples of a mesh leave, in the order of the triples. */
  function MeshTriangles(positions: seq<real>, m: Matrix4x4, indices: seq<nat>, proj: Matrix4x4, near: real, s: Screen): seq<Triangle>
    requires |indices| % 3 == 0 && IndicesInRange(positions, indices)
    decreases |indices|
  {
    if |indices| == 0 then []
    else
      var n := |indices| - 3;
      MeshTriangles(positions, m, indices[..n], proj, near, s) +
      OccluderTriangles(ViewVertex(positions, m, indices[n]), ViewVertex(positions, m, indices[n + 1]),
                        ViewVertex(positions, m, indices[n + 2]), proj, near, s)
  }

  /** A mesh of n triangles gives at most 2n screen triangles. */
  lemma {:induction false} MeshTriangleCount(positions: seq<real>, m: Matrix4x4, indices: seq<nat>, proj: Matrix4x4, near: real, s: Screen)
    requires |indices| % 3 == 0 && IndicesInRange(positions, indices)
    ensures |MeshTriangles(positions, m, indices, proj, near, s)| <= 2 * (|indices| / 3)
    decreases |indices|
  {
    if |indices| > 0 {
      var n := |indices| - 3;
      var prefix := indices[..n];
      assert IndicesInRange(positions, prefix);
      MeshTriangleCount(positions, m, prefix, proj, near, s);
      var v1, v2, v3 := ViewVertex(positions, m, indices[n]), ViewVertex(positions, m, indices[n + 1]), ViewVertex(positions, m, indices[n + 2]);
      OccluderTrianglesAtMostTwo(v1, v2, v3, proj, near, s);
      assert MeshTriangles(positions, m, indices, proj, near, s)
          == MeshTriangles(positions, m, prefix, proj, near, s) + OccluderTriangles(v1, v2, v3, proj, near, s);
    }
  }

  lemma OccluderTrianglesAtMostTwo(v1: Vec4, v2: Vec4, v3: Vec4, proj: Matrix4x4, near: real, s: Screen)
    ensures |OccluderTriangles(v1, v2, v3, proj, near, s)| <= 2
  {
    OccluderTriangleCount(v1, v2, v3, proj, near, s);
  }

  /** posArray holds the view-space coordinates of every whole position. */
  ghost predicate HoldsViewPositions(posArray: seq<real>, positions: seq<real>, m: Matrix4x4, n: nat)
    requires |posArray| == |positions|
  {
    forall j :: 0 <= j && 3 * j + 2 < n ==> (3 * j + 2 < |positions| &&
      posArray[3 * j] == ViewVertex(positions, m, j).x &&
      posArray[3 * j + 1] == ViewVertex(positions, m, j).y &&
      posArray[3 * j + 2] == ViewVertex(positions, m, j).z)
  }

  /** _createTrianglesForEntity: the positions are transformed to view space
      once, then every index triple is culled, clipped, projected, mapped to
      the screen and re-triangulated. unitW is the shared Vector4.UNIT_W,
      which the transform loop uses as its scratch vector. */
  method CreateTrianglesForEntity(positions: seq<real>, indices: seq<nat>, world: Matrix4x4, view: Matrix4x4,
                                  proj: Matrix4x4, near: real, s: Screen, unitW: Vec4)
    returns (triangles: seq<Triangle>, unitW': Vec4)
    requires ValidMesh(positions, indices)
    ensures triangles == MeshTriangles(positions, Combine(view, world), indices, proj, near, s)
    ensures unitW' == ScratchAfter(positions, Combine(view, world), unitW)
  {
    var combined := Combine(view, world);
    var posArray;
    posArray, unitW' := TransformPositions(positions, combined, unitW);
    triangles := TriangleLoop(posArray, positions, combined, indices, proj, near, s);
  }

  /** The scratch vector after the transform loop: the last position, with w
      set to 1, multiplied by m; untouched when there is no position. */
  function ScratchAfter(positions: seq<real>, m: Matrix4x4, scratch: Vec4): Vec4
    requires |positions| % 3 == 0
  {
    if |positions| == 0 then scratch
    else
      var n := |positions|;
      ApplyPost(m, Vec4(positions[n - 3], positions[n - 2], positions[n - 1], 1.0))
  }

  /** Vector4.UNIT_W keeps its value through _createTrianglesForEntity exactly
      when the mesh has no position or its last position is taken to the unit
      w vector itself; any other mesh overwrites the shared constant. */
  lemma UnitWKeptIff(positions: seq<real>, m: Matrix4x4)
    requires |positions| % 3 == 0
    ensures ScratchAfter(positions, m, UnitW) == UnitW <==>
      |positions| == 0 ||
      ApplyPost(m, Vec4(positions[|positions| - 3], positions[|positions| - 2], positions[|positions| - 1], 1.0)) == UnitW
  {
  }

  /** The first loop of _createTrianglesForEntity: each position multiplied by
      the combined matrix once, into a buffer of the same length, through the
      scratch vector `tempVertex`, which is the shared Vector4.UNIT_W. */
  method TransformPositions(positions: seq<real>, m: Matrix4x4, unitW: Vec4) returns (posArray: array<real>, unitW': Vec4)
    requires |positions| % 3 == 0
    ensures fresh(posArray) && posArray.Length == |positions|
    ensures HoldsViewPositions(posArray[..], positions, m, |positions|)
    ensures unitW' == ScratchAfter(positions, m, unitW)
  {
    posArray := new real[|positions|];
    unitW' := unitW;
    var i := 0;
    while i < posArray.Length
      invariant 0 <= i <= posArray.Length && i % 3 == 0
      invariant HoldsViewPositions(posArray[..], positions, m, i)
      invariant unitW' == ScratchAfter(positions[..i], m, unitW)
    {
      unitW' := ApplyPost(m, Vec4(positions[i], positions[i + 1], positions[i + 2], 1.0));
      ghost var before := posArray[..];
      posArray[i], posArray[i + 1], posArray[i + 2] := unitW'.x, unitW'.y, unitW'.z;
      ViewPositionsStep(before, posArray[..], positions, m, i);
      i := i + 3;
    }
    assert positions[..i] == positions;
  }

  /** Writing the view-space coordinates of the position at i, a multiple
      of 3, extends the prefix that holds them by one whole position. */
  lemma ViewPositionsStep(before: seq<real>, after: seq<real>, positions: seq<real>, m: Matrix4x4, i: nat)
    requires |before| == |after| == |positions| && i % 3 == 0 && i + 2 < |positions|
    requires HoldsViewPositions(before, positions, m, i)
    requires forall k :: 0 <= k < |after| && (k < i || k > i + 2) ==> after[k] == before[k]
    requires var v := ApplyPost(m, Vec4(positions[i], positions[i + 1], positions[i + 2], 1.0));
      after[i] == v.x && after[i + 1] == v.y && after[i + 2] == v.z
    ensures HoldsViewPositions(after, positions, m, i + 3)
  {
    forall j | 0 <= j && 3 * j + 2 < i + 3
      ensures 3 * j + 2 < |positions| && after[3 * j] == ViewVertex(positions, m, j).x &&
        after[3 * j + 1] == ViewVertex(positions, m, j).y && after[3 * j + 2] == ViewVertex(positions, m, j).z
    {
      if 3 * j + 2 >= i {
        assert 3 * j == i;
      }
    }
  }

  /** The second loop of _createTrianglesForEntity, over the index triples. */
  method TriangleLoop(posArray: array<real>, ghost positions: seq<real>, ghost m: Matrix4x4, indices: seq<nat>,
                      proj: Matrix4x4, near: real, s: Screen) returns (triangles: seq<Triangle>)
    requires posArray.Length == |positions| && ValidMesh(positions, indices)
    requires HoldsViewPositions(posArray[..], positions, m, |positions|)
    ensures triangles == MeshTriangles(positions, m, indices, proj, near, s)
  {
    triangles := [];
    var vertIndex := 0;
    while vertIndex < |indices|
      invariant 0 <= vertIndex <= |indices| && vertIndex % 3 == 0
      invariant IndicesInRange(positions, indices[..vertIndex])
      invariant triangles == MeshTriangles(positions, m, indices[..vertIndex], proj, near, s)
    {
      WholeTripleLeft(vertIndex, |indices|);
      var added := TripleTriangles(posArray, positions, m, indices, vertIndex, proj, near, s);
      MeshTrianglesStep(positions, m, indices, vertIndex, proj, near, s);
      triangles := triangles + added;
      vertIndex := vertIndex + 3;
    }
    assert indices[..vertIndex] == indices;
  }

  /** The body of the triangle loop for the index triple at i. */
  method TripleTriangles(posArray: array<real>, ghost positions: seq<real>, ghost m: Matrix4x4, indices: seq<nat>, i: nat,
                         proj: Matrix4x4, near: real, s: Screen) returns (added: seq<Triangle>)
    requires posArray.Length == |positions| && ValidMesh(positions, indices) && i + 2 < |indices|
    requires HoldsViewPositions(posArray[..], positions, m, |positions|)
    ensures added == OccluderTriangles(ViewVertex(positions, m, indices[i]), ViewVertex(positions, m, indices[i + 1]),
                                       ViewVertex(positions, m, indices[i + 2]), proj, near, s)
  {
    var v1 := ReadVertex(posArray, positions, m, indices[i]);
    var v2 := ReadVertex(posArray, positions, m, indices[i + 1]);
    var v3 := ReadVertex(posArray, positions, m, indices[i + 2]);
    added := ClipAndProject(v1, v2, v3, proj, near, s);
  }

  /** Below a length that is a multiple of 3, a multiple of 3 leaves a whole triple. */
  lemma WholeTripleLeft(i: nat, n: nat)
    requires i % 3 == 0 && n % 3 == 0 && i < n
    ensures i + 3 <= n
  {
    assert i == 3 * (i / 3) && n == 3 * (n / 3);
  }

  /** Extending a whole prefix of the index list by one triple appends that
      triple's triangles. */
  lemma MeshTrianglesStep(positions: seq<real>, m: Matrix4x4, indices: seq<nat>, i: nat, proj: Matrix4x4, near: real, s: Screen)
    requires ValidMesh(positions, indices) && i % 3 == 0 && i + 3 <= |indices|
    ensures IndicesInRange(positions, indices[..i]) && IndicesInRange(positions, indices[..i + 3])
    ensures MeshTriangles(positions, m, indices[..i + 3], proj, near, s) ==
      MeshTriangles(positions, m, indices[..i], proj, near, s) +
      OccluderTriangles(ViewVertex(positions, m, indices[i]), ViewVertex(positions, m, indices[i + 1]),
                        ViewVertex(positions, m, indices[i + 2]), proj, near, s)
  {
    var p := indices[..i + 3];
    assert p[..i] == indices[..i];
    assert p[i] == indices[i] && p[i + 1] == indices[i + 1] && p[i + 2] == indices[i + 2];
  }

  /** new Vector4(posArray[3j], posArray[3j + 1], posArray[3j + 2], 1.0). */
  method ReadVertex(posArray: array<real>, ghost positions: seq<real>, ghost m: Matrix4x4, j: nat) returns (v: Vec4)
    requires posArray.Length == |positions| && 3 * j + 2 < |positions|
    requires HoldsViewPositions(posArray[..], positions, m, |positions|)
    ensures v == ViewVertex(positions, m, j)
  {
    v := Vec4(posArray[3 * j], posArray[3 * j + 1], posArray[3 * j + 2], 1.0);
  }

  /** The body of the triangle loop for one view-space triangle. */
  method ClipAndProject(v1: Vec4, v2: Vec4, v3: Vec4, proj: Matrix4x4, near: real, s: Screen) returns (added: seq<Triangle>)
    ensures added == OccluderTriangles(v1, v2, v3, proj, near, s)
  {
    added := [];
    if IsBackFacingCameraViewSpace(v1, v2, v3) {
      return;
    }
    var clipped := ClipNearPlane([v1, v2, v3], near);
    if clipped.None? {
      return;
    }
    var c := clipped.value;
    CategorizeIsPartition([v1, v2, v3], -near);
    var vertices := new Vec4[|c.vertices|](k requires 0 <= k < |c.vertices| => c.vertices[k]);
    ProjectionTransform(vertices, proj);
    TransformToScreenSpace(vertices, s);
    assert vertices[..] == ScreenVertices(c.vertices, proj, s);
    added := CreateTriangles(c.(vertices := vertices[..]));
  }

  // ---------------------------------------------------------------------
  // The triangles of a bounding box: _createTrianglesForBoundingBox.
  // ---------------------------------------------------------------------

  /** The eight corners after the combined transform and the homogeneous division. */
  function ProjectedCorners(m: Matrix4x4, x: real, y: real, z: real): (r: seq<Vec4>)
    ensures |r| == 8
  {
    var c := BoxClip.GenerateBoundingBoxVertices(x, y, z);
    seq(8, k requires 0 <= k < 8 => Homogenize(ApplyPost(m, c[k])))
  }

  predicate TriplesIn(idx: seq<nat>, n: nat) {
    |idx| % 3 == 0 && forall k :: 0 <= k < |idx| ==> idx[k] < n
  }

  /** The triangles kept from the index triples idx over projected vertices
      pv: exactly those _isBackFacingProjected reports, mapped to the screen. */
  function BoxTriangles(pv: seq<Vec4>, idx: seq<nat>, s: Screen): seq<Triangle>
    requires TriplesIn(idx, |pv|)
    decreases |idx|
  {
    if |idx| == 0 then []
    else
      var n := |idx| - 3;
      var v1, v2, v3 := pv[idx[n]], pv[idx[n + 1]], pv[idx[n + 2]];
      BoxTriangles(pv, idx[..n], s) +
      (if IsBackFacingProjected(v1, v2, v3) then [Triangle(ToScreen(v1, s), ToScreen(v2, s), ToScreen(v3, s))] else [])
  }

  /** At most one triangle per triple is kept, and on a screen more than one
      pixel wide and tall every kept triangle is still reported back-facing by
      _isBackFacingProjected after the screen transform. */
  lemma {:induction false} BoxTrianglesWinding(pv: seq<Vec4>, idx: seq<nat>, s: Screen)
    requires TriplesIn(idx, |pv|)
    ensures |BoxTriangles(pv, idx, s)| <= |idx| / 3
    ensures s.width > 1 && s.height > 1 ==>
      forall t :: t in BoxTriangles(pv, idx, s) ==> IsBackFacingProjected(t.v1, t.v2, t.v3)
    decreases |idx|
  {
    if |idx| > 0 {
      var n := |idx| - 3;
      BoxTrianglesWinding(pv, idx[..n], s);
      ToScreenKeepsFacing(pv[idx[n]], pv[idx[n + 1]], pv[idx[n + 2]], s);
    }
  }

  /** _createTrianglesForBoundingBox: None (the source's false) as soon as a
      corner's w is below the near distance; otherwise the kept triangles. */
  method CreateTrianglesForBoundingBox(x: real, y: real, z: real, world: Matrix4x4, viewProj: Matrix4x4,
                                       near: real, s: Screen) returns (r: Option<seq<Triangle>>)
    ensures var m := Combine(viewProj, world);
      var corners := BoxClip.GenerateBoundingBoxVertices(x, y, z);
      (r.None? <==> exists k :: 0 <= k < 8 && ApplyPost(m, corners[k]).w < near) &&
      (r.Some? ==> r.value == BoxTriangles(ProjectedCorners(m, x, y, z), BoxClip.BoundingBoxTriangleIndices(), s))
  {
    var combined := Combine(viewProj, world);
    var corners := BoxClip.GenerateBoundingBoxVertices(x, y, z);
    var vertices := ProjectCorners(corners, combined, near);
    if vertices.None? {
      return None;
    }
    assert vertices.value[..] == ProjectedCorners(combined, x, y, z);
    var triangles := KeepBoxTriangles(vertices.value, BoxClip.BoundingBoxTriangleIndices(), s);
    r := Some(triangles);
  }

  /** The first loop: each corner multiplied by the matrix and divided by its
      w, stopping at the first corner whose w is below near. */
  method ProjectCorners(corners: seq<Vec4>, m: Matrix4x4, near: real) returns (vertices: Option<array<Vec4>>)
    requires |corners| == 8
    ensures vertices.None? <==> exists k :: 0 <= k < 8 && ApplyPost(m, corners[k]).w < near
    ensures vertices.Some? ==> (vertices.value.Length == 8 &&
      forall k :: 0 <= k < 8 ==> vertices.value[k] == Homogenize(ApplyPost(m, corners[k])))
  {
    var vs := new Vec4[8](k requires 0 <= k < 8 => corners[k]);
    for i := 0 to 8
      invariant forall k :: 0 <= k < i ==> ApplyPost(m, corners[k]).w >= near
      invariant forall k :: 0 <= k < i ==> vs[k] == Homogenize(ApplyPost(m, corners[k]))
      invariant forall k :: i <= k < 8 ==> vs[k] == corners[k]
    {
      var v := ApplyPost(m, vs[i]);
      if v.w < near {
        return None;
      }
      vs[i] := Homogenize(v);
    }
    vertices := Some(vs);
  }

  /** The second loop: a copy of each triple is kept, mapped to the screen,
      exactly when _isBackFacingProjected holds of it. */
  method KeepBoxTriangles(vertices: array<Vec4>, idx: seq<nat>, s: Screen) returns (triangles: seq<Triangle>)
    requires TriplesIn(idx, vertices.Length)
    ensures triangles == BoxTriangles(vertices[..], idx, s)
  {
    triangles := [];
    var i := 0;
    while i < |idx|
      invariant 0 <= i <= |idx| && i % 3 == 0
      invariant TriplesIn(idx[..i], vertices.Length)
      invariant triangles == BoxTriangles(vertices[..], idx[..i], s)
    {
      WholeTripleLeft(i, |idx|);
      var projected := new Vec4[3];
      projected[0], projected[1], projected[2] := vertices[idx[i]], vertices[idx[i + 1]], vertices[idx[i + 2]];
      BoxTrianglesStep(vertices[..], idx, i, s);
      if IsBackFacingProjected(projected[0], projected[1], projected[2]) {
        TransformToScreenSpace(projected, s);
        triangles := triangles + [Triangle(projected[0], projected[1], projected[2])];
      }
      i := i + 3;
    }
    assert idx[..i] == idx;
  }

  /** Extending a whole prefix of the triples by one triple appends at most
      that triple's screen triangle. */
  lemma BoxTrianglesStep(pv: seq<Vec4>, idx: seq<nat>, i: nat, s: Screen)
    requires TriplesIn(idx, |pv|) && i % 3 == 0 && i + 3 <= |idx|
    ensures TriplesIn(idx[..i], |pv|) && TriplesIn(idx[..i + 3], |pv|)
    ensures var v1, v2, v3 := pv[idx[i]], pv[idx[i + 1]], pv[idx[i + 2]];
      BoxTriangles(pv, idx[..i + 3], s) == BoxTriangles(pv, idx[..i], s) +
        (if IsBackFacingProjected(v1, v2, v3) then [Triangle(ToScreen(v1, s), ToScreen(v2, s), ToScreen(v3, s))] else [])
  {
    var p := idx[..i + 3];
    assert p[..i] == idx[..i];
    assert p[i] == idx[i] && p[i + 1] == idx[i + 1] && p[i + 2] == idx[i + 2];
  }
}
