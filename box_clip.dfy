/** Cohen-Sutherland outcodes and the conservative screen envelope of a box
    (SoftwareRenderer._calculateOutCode, _isCoordinateInsideScreen,
    _cohenSutherlandClipBox and the bounding-box index tables). */
module BoxClip {
  import opened Geometry

  /** A 4-bit Cohen-Sutherland region code. */
  type OutCode = bv4

  const INSIDE: OutCode := 0
  const LEFT: OutCode := 1
  const RIGHT: OutCode := 2
  const BELOW: OutCode := 4
  const ABOVE: OutCode := 8

  /** The clip rectangle [0, clipX] x [0, clipY] in screen pixel coordinates. */
  datatype Window = Window(clipX: real, clipY: real) {
    predicate Valid() { clipX >= 0.0 && clipY >= 0.0 }
  }

  /** The window of a screen: columns 0 to width - 1, rows 0 to height - 1. */
  function ScreenWindow(s: Screen): (w: Window)
    requires s.Valid()
    ensures w.Valid()
  {
    Window(s.ClipX() as real, s.ClipY() as real)
  }

  /** _isCoordinateInsideScreen: (x, y) lies in the clip rectangle, borders included. */
  predicate IsCoordinateInsideScreen(s: Window, x: real, y: real) {
    x >= 0.0 && x <= s.clipX && y <= s.clipY && y >= 0.0
  }

  /** On a screen's window, a whole-pixel coordinate is inside exactly when
      it addresses a pixel of the screen. */
  lemma InsideScreenIsOnScreen(s: Screen, x: int, y: int)
    requires s.Valid()
    ensures IsCoordinateInsideScreen(ScreenWindow(s), x as real, y as real) <==> s.OnScreen(x, y)
  {
  }

  /** The region code of (x, y): LEFT or RIGHT from x, BELOW or ABOVE from y. */
  function CalculateOutCode(s: Window, x: real, y: real): (code: OutCode)
    ensures code == INSIDE <==> IsCoordinateInsideScreen(s, x, y)
  {
    var horizontal := if x < 0.0 then LEFT else if x > s.clipX then RIGHT else INSIDE;
    var vertical := if y < 0.0 then BELOW else if y > s.clipY then ABOVE else INSIDE;
    INSIDE | horizontal | vertical
  }

  /** Each bit of the code stands for one region beyond a border; opposite
      regions are never both set. */
  lemma OutCodeBits(s: Window, x: real, y: real)
    ensures var code := CalculateOutCode(s, x, y);
      code & (LEFT | RIGHT) != LEFT | RIGHT && code & (BELOW | ABOVE) != BELOW | ABOVE &&
      ((code & LEFT != 0) <==> x < 0.0) &&
      ((code & RIGHT != 0) <==> 0.0 <= x && x > s.clipX) &&
      ((code & BELOW != 0) <==> y < 0.0) &&
      ((code & ABOVE != 0) <==> 0.0 <= y && y > s.clipY)
  {
  }

  /** Number of bits set in a code. */
  function Pop(c: OutCode): nat {
    (if c & LEFT != 0 then 1 else 0) + (if c & RIGHT != 0 then 1 else 0)
      + (if c & BELOW != 0 then 1 else 0) + (if c & ABOVE != 0 then 1 else 0)
  }

  // ---------------------------------------------------------------------
  // The corners of a bounding box and the fixed index tables over them.
  // ---------------------------------------------------------------------

  /** Corner k of _generateBoundingBoxVertices has +x, +y, +z exactly when these hold. */
  predicate CornerPosX(k: nat) { k == 2 || k == 3 || k == 6 || k == 7 }
  predicate CornerPosY(k: nat) { k < 4 }
  predicate CornerPosZ(k: nat) { k == 0 || k == 3 || k == 4 || k == 7 }

  /** The eight local-space corners of a box with half-extents (x, y, z). */
  function GenerateBoundingBoxVertices(x: real, y: real, z: real): (vs: seq<Vec4>)
    ensures |vs| == 8
    ensures forall k :: 0 <= k < 8 ==>
      vs[k].x == (if CornerPosX(k) then x else -x) &&
      vs[k].y == (if CornerPosY(k) then y else -y) &&
      vs[k].z == (if CornerPosZ(k) then z else -z) && vs[k].w == 1.0
  {
    [Vec4(-x, y, z, 1.0), Vec4(-x, y, -z, 1.0), Vec4(x, y, -z, 1.0), Vec4(x, y, z, 1.0),
     Vec4(-x, -y, z, 1.0), Vec4(-x, -y, -z, 1.0), Vec4(x, -y, -z, 1.0), Vec4(x, -y, z, 1.0)]
  }

  /** Corners a and b are joined by an edge of the box: they differ in exactly one axis. */
  predicate IsCubeEdge(a: nat, b: nat) {
    var dx, dy, dz := CornerPosX(a) != CornerPosX(b), CornerPosY(a) != CornerPosY(b), CornerPosZ(a) != CornerPosZ(b);
    (dx && !dy && !dz) || (!dx && dy && !dz) || (!dx && !dy && dz)
  }

  /** _generateBoundingBoxEdgeIndices, as written. */
  function GenerateBoundingBoxEdgeIndices(): (t: seq<(nat, nat)>)
    ensures |t| == 12
    ensures forall k :: 0 <= k < 12 ==> t[k].0 < 8 && t[k].1 < 8 && t[k].0 != t[k].1
  {
    [(0, 1), (1, 2), (2, 3), (3, 0), (4, 5), (5, 6), (6, 7), (7, 0), (0, 4), (1, 5), (2, 6), (3, 7)]
  }

  /** Entry 7 of the edge table joins corners 7 and 0, a diagonal of the +z face;
      every other entry is an edge of the box, and the box edge 4-7 is missing. */
  lemma EdgeTableDiagonal()
    ensures var t := GenerateBoundingBoxEdgeIndices();
      t[7] == (7, 0) && !IsCubeEdge(7, 0) &&
      (forall k :: 0 <= k < 12 && k != 7 ==> IsCubeEdge(t[k].0, t[k].1)) &&
      (forall k :: 0 <= k < 12 ==> t[k] != (4, 7) && t[k] != (7, 4))
  {
  }

  /** t lists three distinct corners, each joined to corner a by a box edge. */
  predicate IsNeighbourList(a: nat, t: seq<nat>) {
    |t| == 3 && t[0] != t[1] && t[1] != t[2] && t[0] != t[2] &&
    forall j :: 0 <= j < 3 ==> t[j] < 8 && IsCubeEdge(a, t[j])
  }

  /** _generateBoundingBoxNeighbourIndices: the three neighbours of every corner. */
  method GenerateBoundingBoxNeighbourIndices() returns (n: seq<seq<nat>>)
    ensures |n| == 8
    ensures forall i :: 0 <= i < 8 ==> IsNeighbourList(i, n[i])
  {
    n := [];
    for i := 0 to 8
      invariant |n| == i
      invariant forall a :: 0 <= a < i ==> IsNeighbourList(a, n[a])
    {
      var n1, n2, n3;
      if i == 0 {
        n1, n2, n3 := 3, 1, 4;
      } else if i == 3 {
        n1, n2, n3 := 2, 0, 7;
      } else if i == 4 {
        n1, n2, n3 := 7, 5, 0;
      } else if i == 7 {
        n1, n2, n3 := 6, 4, 3;
      } else {
        n1, n2, n3 := (i + 7) % 8, (i + 1) % 8, (i + 4) % 8;
        DefaultNeighbours(i);
      }
      n := n + [[n1, n2, n3]];
    }
  }

  /** Corners 1, 2, 5 and 6 take the default case of the switch. */
  lemma DefaultNeighbours(i: nat)
    requires i < 8 && i != 0 && i != 3 && i != 4 && i != 7
    ensures IsNeighbourList(i, [(i + 7) % 8, (i + 1) % 8, (i + 4) % 8])
  {
    assert i == 1 || i == 2 || i == 5 || i == 6;
  }

  /** The twelve triangles of the box, three corner indices each. */
  function BoundingBoxTriangleIndices(): (t: seq<nat>)
    ensures |t| == 36 && forall k :: 0 <= k < 36 ==> t[k] < 8
  {
    [0, 3, 4, 3, 7, 4, 0, 4, 5, 0, 5, 1, 2, 1, 5, 2, 5, 6,
     3, 2, 6, 3, 6, 7, 0, 1, 2, 0, 2, 3, 5, 4, 6, 7, 6, 4]
  }

  /** Corners a, b and c are distinct and share one face of the box. */
  predicate OnOneFace(a: nat, b: nat, c: nat) {
    a != b && b != c && a != c &&
    ((CornerPosX(a) == CornerPosX(b) == CornerPosX(c)) ||
     (CornerPosY(a) == CornerPosY(b) == CornerPosY(c)) ||
     (CornerPosZ(a) == CornerPosZ(b) == CornerPosZ(c)))
  }

  /** Every triangle of the table lies in one face of the box. */
  lemma TrianglesLieInFaces()
    ensures var t := BoundingBoxTriangleIndices();
      forall k :: 0 <= k < 36 && k % 3 == 0 ==> OnOneFace(t[k], t[k + 1], t[k + 2])
  {
  }

  // ---------------------------------------------------------------------
  // The envelope [minX, maxX, minY, maxY, minDepth].
  // ---------------------------------------------------------------------

  /** A JavaScript number in an envelope slot: finite, or one of the infinities
      the slots start with. */
  datatype Ext = NegInf | Fin(v: real) | PosInf

  /** x > e and x < e. */
  predicate Gt(x: real, e: Ext) {
    match e
    case NegInf => true
    case Fin(v) => x > v
    case PosInf => false
  }
  predicate Lt(x: real, e: Ext) {
    match e
    case NegInf => false
    case Fin(v) => x < v
    case PosInf => true
  }
  predicate ExtLe(a: Ext, b: Ext) {
    match (a, b)
    case (NegInf, _) => true
    case (_, PosInf) => true
    case (Fin(u), Fin(v)) => u <= v
    case _ => false
  }

  /** A value written into slot k lies on the screen: slots 0 and 1 hold x, 2 and 3 hold y. */
  predicate SlotOnScreen(s: Window, k: nat, e: Ext) {
    e.Fin? && 0.0 <= e.v &&
    (if k < 2 then e.v <= s.clipX else e.v <= s.clipY)
  }

  /** Every x/y slot still holds its initial value or a value on the screen. */
  ghost predicate WrittenOnScreen(s: Window, init: seq<Ext>, m: seq<Ext>)
    requires |init| == 5 && |m| == 5
  {
    forall k :: 0 <= k < 4 ==> m[k] == init[k] || SlotOnScreen(s, k, m[k])
  }

  /** The envelope's rectangle contains the point (x, y). */
  ghost predicate CoversXY(m: seq<Ext>, x: real, y: real)
    requires |m| == 5
  {
    ExtLe(m[0], Fin(x)) && ExtLe(Fin(x), m[1]) && ExtLe(m[2], Fin(y)) && ExtLe(Fin(y), m[3])
  }

  /** The envelope contains the point (x, y) and a depth of at least w. */
  ghost predicate Covers(m: seq<Ext>, x: real, y: real, w: real)
    requires |m| == 5
  {
    CoversXY(m, x, y) && ExtLe(Fin(w), m[4])
  }

  /** Every bound has reached the screen: minX <= clipX, maxX >= 0,
      minY <= clipY and maxY >= 0. An envelope that covers a point on the
      screen has reached it. */
  ghost predicate Reaches(sc: Window, m: seq<Ext>)
    requires |m| == 5
  {
    ExtLe(m[0], Fin(sc.clipX)) && ExtLe(Fin(0.0), m[1]) && ExtLe(m[2], Fin(sc.clipY)) && ExtLe(Fin(0.0), m[3])
  }

  lemma CoversReaches(sc: Window, m: seq<Ext>, x: real, y: real)
    requires |m| == 5 && IsCoordinateInsideScreen(sc, x, y) && CoversXY(m, x, y)
    ensures Reaches(sc, m)
  {
    ExtLeTrans(m[0], Fin(x), Fin(sc.clipX));
    ExtLeTrans(Fin(0.0), Fin(x), m[1]);
    ExtLeTrans(m[2], Fin(y), Fin(sc.clipY));
    ExtLeTrans(Fin(0.0), Fin(y), m[3]);
  }

  /** The envelope widened to the point v: its x, its y and its depth. */
  function Widen(m: seq<Ext>, v: Vec4): (m': seq<Ext>)
    requires |m| == 5
    ensures |m'| == 5
  {
    [if Lt(v.x, m[0]) then Fin(v.x) else m[0], if Gt(v.x, m[1]) then Fin(v.x) else m[1],
     if Lt(v.y, m[2]) then Fin(v.y) else m[2], if Gt(v.y, m[3]) then Fin(v.y) else m[3],
     if Gt(v.w, m[4]) then Fin(v.w) else m[4]]
  }

  /** The envelope once the corner loop has seen the first n corners: each
      corner on the screen widens it. */
  function CornerEnvelope(sc: Window, m: seq<Ext>, vertices: seq<Vec4>, n: nat): (m': seq<Ext>)
    requires |m| == 5 && n <= |vertices|
    ensures |m'| == 5
  {
    if n == 0 then m
    else
      var prev := CornerEnvelope(sc, m, vertices, n - 1);
      if IsCoordinateInsideScreen(sc, vertices[n - 1].x, vertices[n - 1].y) then Widen(prev, vertices[n - 1]) else prev
  }

  /** The envelope the caller starts from: [Infinity, -Infinity, Infinity,
      -Infinity, -Infinity]. */
  const Unset: seq<Ext> := [PosInf, NegInf, PosInf, NegInf, NegInf]

  predicate AllInside(sc: Window, vertices: seq<Vec4>) {
    forall i :: 0 <= i < |vertices| ==> IsCoordinateInsideScreen(sc, vertices[i].x, vertices[i].y)
  }

  predicate AnyInside(sc: Window, vertices: seq<Vec4>) {
    exists i :: 0 <= i < |vertices| && IsCoordinateInsideScreen(sc, vertices[i].x, vertices[i].y)
  }

  /** From the unset envelope, when the first n > 0 corners are all on the
      screen, the corner envelope is exactly their bounding rectangle and
      nearest depth: every slot is finite, bounds every corner and is
      attained by one of them. */
  lemma {:induction false} CornerEnvelopeExact(sc: Window, vertices: seq<Vec4>, n: nat)
    requires 0 < n <= |vertices|
    requires forall j :: 0 <= j < n ==> IsCoordinateInsideScreen(sc, vertices[j].x, vertices[j].y)
    ensures var m := CornerEnvelope(sc, Unset, vertices, n);
      m[0].Fin? && m[1].Fin? && m[2].Fin? && m[3].Fin? && m[4].Fin? &&
      (forall j :: 0 <= j < n ==>
        m[0].v <= vertices[j].x <= m[1].v && m[2].v <= vertices[j].y <= m[3].v && vertices[j].w <= m[4].v) &&
      (exists j :: 0 <= j < n && vertices[j].x == m[0].v) && (exists j :: 0 <= j < n && vertices[j].x == m[1].v) &&
      (exists j :: 0 <= j < n && vertices[j].y == m[2].v) && (exists j :: 0 <= j < n && vertices[j].y == m[3].v) &&
      (exists j :: 0 <= j < n && vertices[j].w == m[4].v)
  {
    var v := vertices[n - 1];
    assert IsCoordinateInsideScreen(sc, v.x, v.y);
    var m := CornerEnvelope(sc, Unset, vertices, n);
    if n == 1 {
      assert CornerEnvelope(sc, Unset, vertices, 0) == Unset;
      assert m == [Fin(v.x), Fin(v.x), Fin(v.y), Fin(v.y), Fin(v.w)];
    } else {
      CornerEnvelopeExact(sc, vertices, n - 1);
      var prev := CornerEnvelope(sc, Unset, vertices, n - 1);
      assert m == Widen(prev, v);
      var j0 :| 0 <= j0 < n - 1 && vertices[j0].x == prev[0].v;
      var j1 :| 0 <= j1 < n - 1 && vertices[j1].x == prev[1].v;
      var j2 :| 0 <= j2 < n - 1 && vertices[j2].y == prev[2].v;
      var j3 :| 0 <= j3 < n - 1 && vertices[j3].y == prev[3].v;
      var j4 :| 0 <= j4 < n - 1 && vertices[j4].w == prev[4].v;
      assert vertices[if v.x < prev[0].v then n - 1 else j0].x == m[0].v;
      assert vertices[if v.x > prev[1].v then n - 1 else j1].x == m[1].v;
      assert vertices[if v.y < prev[2].v then n - 1 else j2].y == m[2].v;
      assert vertices[if v.y > prev[3].v then n - 1 else j3].y == m[3].v;
      assert vertices[if v.w > prev[4].v then n - 1 else j4].w == m[4].v;
    }
  }

  lemma ExtLeTrans(a: Ext, b: Ext, c: Ext)
    requires ExtLe(a, b) && ExtLe(b, c)
    ensures ExtLe(a, c)
  {
  }

  // ---------------------------------------------------------------------
  // Geometry of one box edge. Every point the clipping loop computes lies on
  // the line through the edge's endpoints a and b: a at s = 0, b at s = 1.
  // ---------------------------------------------------------------------

  /** A point of the line through an edge, with its parameter s. */
  datatype LinePoint = LinePoint(s: real, x: real, y: real)

  predicate OnLine(a: Vec4, b: Vec4, pt: LinePoint) {
    pt.x == a.x + (b.x - a.x) * pt.s && pt.y == a.y + (b.y - a.y) * pt.s
  }

  function Code(sc: Window, pt: LinePoint): OutCode {
    CalculateOutCode(sc, pt.x, pt.y)
  }

  predicate Between(r: real, p: real, q: real) {
    (p <= r <= q) || (q <= r <= p)
  }

  /** On an affine function f(s) = a + c * s, the unique point where f equals k
      lies between a point above k and a point at or below it. */
  lemma CrossingBetween(a: real, c: real, p: real, q: real, k: real)
    requires a + c * p > k >= a + c * q
    ensures c != 0.0 && Between((k - a) / c, p, q) && a + c * ((k - a) / c) == k
  {
    var r := (k - a) / c;
    assert a + c * r == k;
    if c > 0.0 {
      assert c * q <= c * r < c * p;
      MulLtCancel(c, q, r);
      MulLtCancel(c, r, p);
    } else {
      assert c * q <= c * r < c * p;
      MulLtCancelNeg(c, q, r);
      MulLtCancelNeg(c, r, p);
    }
  }

  /** The same, for a function rising through k. */
  lemma CrossingBetweenUp(a: real, c: real, p: real, q: real, k: real)
    requires a + c * p < k <= a + c * q
    ensures c != 0.0 && Between((k - a) / c, p, q) && a + c * ((k - a) / c) == k
  {
    CrossingBetween(-a, -c, p, q, -k);
    assert (-k - -a) / -c == (k - a) / c;
  }

  lemma MulLtCancel(c: real, u: real, v: real)
    requires c > 0.0 && c * u <= c * v
    ensures u <= v
  {
  }

  lemma MulLtCancelNeg(c: real, u: real, v: real)
    requires c < 0.0 && c * u <= c * v
    ensures v <= u
  {
  }

  lemma MulMono(c: real, u: real, v: real)
    requires c >= 0.0 && u <= v
    ensures c * u <= c * v
  {
    assert c * (v - u) >= 0.0;
  }

  /** An affine function bounded by k at two points is bounded by k between them. */
  lemma AffineBelow(a: real, c: real, p: real, q: real, r: real, k: real)
    requires Between(r, p, q) && a + c * p <= k && a + c * q <= k
    ensures a + c * r <= k
  {
    if c >= 0.0 {
      if p <= q { MulMono(c, r, q); } else { MulMono(c, r, p); }
    } else {
      if p <= q { MulMono(-c, p, r); } else { MulMono(-c, q, r); }
    }
  }

  lemma AffineAbove(a: real, c: real, p: real, q: real, r: real, k: real)
    requires Between(r, p, q) && a + c * p >= k && a + c * q >= k
    ensures a + c * r >= k
  {
    AffineBelow(-a, -c, p, q, r, -k);
  }

  /** The bounds of AffineBelow and AffineAbove, for values already computed. */
  lemma AffineBetween(a: real, c: real, p: real, q: real, r: real, vp: real, vq: real, vr: real, hi: real)
    requires Between(r, p, q) && vp == a + c * p && vq == a + c * q && vr == a + c * r
    ensures vp >= 0.0 && vq >= 0.0 ==> vr >= 0.0
    ensures vp <= hi && vq <= hi ==> vr <= hi
  {
    if vp >= 0.0 && vq >= 0.0 {
      AffineAbove(a, c, p, q, r, 0.0);
    }
    if vp <= hi && vq <= hi {
      AffineBelow(a, c, p, q, r, hi);
    }
  }

  /** A point of the line between two others stays within every border both respect. */
  lemma PointsBetween(a: Vec4, b: Vec4, p: LinePoint, q: LinePoint, r: LinePoint, sc: Window)
    requires OnLine(a, b, p) && OnLine(a, b, q) && OnLine(a, b, r) && Between(r.s, p.s, q.s)
    ensures p.x >= 0.0 && q.x >= 0.0 ==> r.x >= 0.0
    ensures p.x <= sc.clipX && q.x <= sc.clipX ==> r.x <= sc.clipX
    ensures p.y >= 0.0 && q.y >= 0.0 ==> r.y >= 0.0
    ensures p.y <= sc.clipY && q.y <= sc.clipY ==> r.y <= sc.clipY
  {
    AffineBetween(a.x, b.x - a.x, p.s, q.s, r.s, p.x, q.x, r.x, sc.clipX);
    AffineBetween(a.y, b.y - a.y, p.s, q.s, r.s, p.y, q.y, r.y, sc.clipY);
  }

  /** A point whose coordinates stay within every border that two other
      points both respect has no code bit outside the union of their codes. */
  lemma CodeWithin(sc: Window, xp: real, yp: real, xq: real, yq: real, xr: real, yr: real)
    requires sc.Valid()
    requires xp >= 0.0 && xq >= 0.0 ==> xr >= 0.0
    requires xp <= sc.clipX && xq <= sc.clipX ==> xr <= sc.clipX
    requires yp >= 0.0 && yq >= 0.0 ==> yr >= 0.0
    requires yp <= sc.clipY && yq <= sc.clipY ==> yr <= sc.clipY
    ensures CalculateOutCode(sc, xr, yr) & !(CalculateOutCode(sc, xp, yp) | CalculateOutCode(sc, xq, yq)) == 0
  {
    var cp, cq, cr := CalculateOutCode(sc, xp, yp), CalculateOutCode(sc, xq, yq), CalculateOutCode(sc, xr, yr);
    OutCodeBits(sc, xp, yp);
    OutCodeBits(sc, xq, yq);
    OutCodeBits(sc, xr, yr);
    assert cr & LEFT != 0 ==> (cp | cq) & LEFT != 0;
    assert cr & RIGHT != 0 ==> (cp | cq) & RIGHT != 0;
    assert cr & BELOW != 0 ==> (cp | cq) & BELOW != 0;
    assert cr & ABOVE != 0 ==> (cp | cq) & ABOVE != 0;
    BitsWithin(cr, cp | cq);
  }

  lemma BitsWithin(c: OutCode, m: OutCode)
    requires c & LEFT != 0 ==> m & LEFT != 0
    requires c & RIGHT != 0 ==> m & RIGHT != 0
    requires c & BELOW != 0 ==> m & BELOW != 0
    requires c & ABOVE != 0 ==> m & ABOVE != 0
    ensures c & !m == 0
  {
  }

  /** The single-bit codes. */
  predicate IsBit(bit: OutCode) {
    bit == LEFT || bit == RIGHT || bit == BELOW || bit == ABOVE
  }

  lemma PopShrinks(c: OutCode, m: OutCode, bit: OutCode)
    requires IsBit(bit) && c & !m == 0 && c & bit == 0 && m & bit == bit
    ensures Pop(c) < Pop(m)
  {
  }

  /** Replacing a code p, outside by `bit`, with a code r that lies within p | q
      and is clear of `bit` makes the union of the two codes strictly smaller. */
  lemma CutShrinks(cp: OutCode, cq: OutCode, cr: OutCode, bit: OutCode)
    requires IsBit(bit) && cp & bit != 0 && cp & cq == 0
    requires cr & !(cp | cq) == 0 && cr & bit == 0
    ensures Pop(cr | cq) < Pop(cp | cq)
  {
    assert cq & bit == 0;
    assert (cr | cq) & !(cp | cq) == 0;
    PopShrinks(cr | cq, cp | cq, bit);
  }

  /** A cut at a point of the line between p and q whose code is clear of
      `bit` shrinks the union of the two codes. */
  lemma CutProgress(sc: Window, a: Vec4, b: Vec4, p: LinePoint, q: LinePoint, r: LinePoint, bit: OutCode)
    requires sc.Valid() && IsBit(bit)
    requires OnLine(a, b, p) && OnLine(a, b, q) && OnLine(a, b, r) && Between(r.s, p.s, q.s)
    requires Code(sc, p) & bit != 0 && Code(sc, p) & Code(sc, q) == 0 && Code(sc, r) & bit == 0
    ensures Pop(Code(sc, r) | Code(sc, q)) < Pop(Code(sc, p) | Code(sc, q))
  {
    PointsBetween(a, b, p, q, r, sc);
    CodeWithin(sc, p.x, p.y, q.x, q.y, r.x, r.y);
    CutShrinks(Code(sc, p), Code(sc, q), Code(sc, r), bit);
  }

  /** The parameter where the line meets row k, for p beyond and q not beyond
      it: the line is not horizontal and the crossing lies between p and q. */
  lemma RowCrossingParam(a: Vec4, b: Vec4, p: LinePoint, q: LinePoint, k: real, above: bool)
    requires OnLine(a, b, p) && OnLine(a, b, q)
    requires above ==> p.y > k >= q.y
    requires !above ==> p.y < k <= q.y
    ensures b.y - a.y != 0.0
    ensures var r := (k - a.y) / (b.y - a.y);
      Between(r, p.s, q.s) && OnLine(a, b, LinePoint(r, a.x + (b.x - a.x) * r, k))
  {
    if above {
      CrossingBetween(a.y, b.y - a.y, p.s, q.s, k);
    } else {
      CrossingBetweenUp(a.y, b.y - a.y, p.s, q.s, k);
    }
  }

  lemma ColumnCrossingParam(a: Vec4, b: Vec4, p: LinePoint, q: LinePoint, k: real, right: bool)
    requires OnLine(a, b, p) && OnLine(a, b, q)
    requires right ==> p.x > k >= q.x
    requires !right ==> p.x < k <= q.x
    ensures b.x - a.x != 0.0
    ensures var r := (k - a.x) / (b.x - a.x);
      Between(r, p.s, q.s) && OnLine(a, b, LinePoint(r, k, a.y + (b.y - a.y) * r))
  {
    if right {
      CrossingBetween(a.x, b.x - a.x, p.s, q.s, k);
    } else {
      CrossingBetweenUp(a.x, b.x - a.x, p.s, q.s, k);
    }
  }

  /** The point where the edge's line meets row k (the top or bottom border),
      for an endpoint p beyond that border: the ratio along v1 -> v2 and the
      point's x. The point lies on the line, and replacing p by it shrinks the
      union of the two endpoints' codes. */
  method RowCrossing(sc: Window, v1: Vec4, v2: Vec4, k: real, bit: OutCode, ghost p: LinePoint, ghost q: LinePoint)
    returns (ratio: real, tx: real)
    requires sc.Valid()
    requires (bit == ABOVE && k == sc.clipY) || (bit == BELOW && k == 0.0)
    requires OnLine(v1, v2, p) && OnLine(v1, v2, q)
    requires Code(sc, p) & bit != 0 && Code(sc, p) & Code(sc, q) == 0
    ensures OnLine(v1, v2, LinePoint(ratio, tx, k)) && Between(ratio, p.s, q.s)
    ensures Pop(CalculateOutCode(sc, tx, k) | Code(sc, q)) < Pop(Code(sc, p) | Code(sc, q))
  {
    assert Code(sc, q) & bit == 0;
    OutCodeBits(sc, p.x, p.y);
    OutCodeBits(sc, q.x, q.y);
    RowCrossingParam(v1, v2, p, q, k, bit == ABOVE);
    ratio := (k - v1.y) / (v2.y - v1.y);
    tx := v1.x + (v2.x - v1.x) * ratio;
    OutCodeBits(sc, tx, k);
    CutProgress(sc, v1, v2, p, q, LinePoint(ratio, tx, k), bit);
  }

  /** The point where the edge's line meets column k (the right or left
      border): the ratio along v1 -> v2 and the point's y. */
  method ColumnCrossing(sc: Window, v1: Vec4, v2: Vec4, k: real, bit: OutCode, ghost p: LinePoint, ghost q: LinePoint)
    returns (ratio: real, ty: real)
    requires sc.Valid()
    requires (bit == RIGHT && k == sc.clipX) || (bit == LEFT && k == 0.0)
    requires OnLine(v1, v2, p) && OnLine(v1, v2, q)
    requires Code(sc, p) & bit != 0 && Code(sc, p) & Code(sc, q) == 0
    ensures OnLine(v1, v2, LinePoint(ratio, k, ty)) && Between(ratio, p.s, q.s)
    ensures Pop(CalculateOutCode(sc, k, ty) | Code(sc, q)) < Pop(Code(sc, p) | Code(sc, q))
  {
    assert Code(sc, q) & bit == 0;
    OutCodeBits(sc, p.x, p.y);
    OutCodeBits(sc, q.x, q.y);
    ColumnCrossingParam(v1, v2, p, q, k, bit == RIGHT);
    ratio := (k - v1.x) / (v2.x - v1.x);
    ty := v1.y + (v2.y - v1.y) * ratio;
    OutCodeBits(sc, k, ty);
    CutProgress(sc, v1, v2, p, q, LinePoint(ratio, k, ty), bit);
  }

  // ---------------------------------------------------------------------
  // Envelope updates, in place on the five-slot array.
  // ---------------------------------------------------------------------

  /** Every on-screen point the envelope m contained, m' still contains: each
      bound is widened, or set to the screen border it cannot exceed. */
  ghost predicate KeepsInsideCover(sc: Window, m: seq<Ext>, m': seq<Ext>)
    requires |m| == 5 && |m'| == 5
  {
    (ExtLe(m'[0], m[0]) || ExtLe(m'[0], Fin(0.0))) &&
    (ExtLe(m[1], m'[1]) || ExtLe(Fin(sc.clipX), m'[1])) &&
    (ExtLe(m'[2], m[2]) || ExtLe(m'[2], Fin(0.0))) &&
    (ExtLe(m[3], m'[3]) || ExtLe(Fin(sc.clipY), m'[3])) &&
    ExtLe(m[4], m'[4])
  }

  lemma KeepsRefl(sc: Window, m: seq<Ext>)
    requires |m| == 5
    ensures KeepsInsideCover(sc, m, m)
  {
    ExtLeRefl(m[0]);
    ExtLeRefl(m[1]);
    ExtLeRefl(m[2]);
    ExtLeRefl(m[3]);
    ExtLeRefl(m[4]);
  }

  lemma KeepsTrans(sc: Window, m0: seq<Ext>, m1: seq<Ext>, m2: seq<Ext>)
    requires |m0| == 5 && |m1| == 5 && |m2| == 5
    requires KeepsInsideCover(sc, m0, m1) && KeepsInsideCover(sc, m1, m2)
    ensures KeepsInsideCover(sc, m0, m2)
  {
    if ExtLe(m2[0], m1[0]) {
      if ExtLe(m1[0], m0[0]) { ExtLeTrans(m2[0], m1[0], m0[0]); } else { ExtLeTrans(m2[0], m1[0], Fin(0.0)); }
    }
    if ExtLe(m1[1], m2[1]) {
      if ExtLe(m0[1], m1[1]) { ExtLeTrans(m0[1], m1[1], m2[1]); } else { ExtLeTrans(Fin(sc.clipX), m1[1], m2[1]); }
    }
    if ExtLe(m2[2], m1[2]) {
      if ExtLe(m1[2], m0[2]) { ExtLeTrans(m2[2], m1[2], m0[2]); } else { ExtLeTrans(m2[2], m1[2], Fin(0.0)); }
    }
    if ExtLe(m1[3], m2[3]) {
      if ExtLe(m0[3], m1[3]) { ExtLeTrans(m0[3], m1[3], m2[3]); } else { ExtLeTrans(Fin(sc.clipY), m1[3], m2[3]); }
    }
    ExtLeTrans(m0[4], m1[4], m2[4]);
  }

  /** An envelope that has reached the screen still has after any update that
      keeps inside cover. */
  lemma ReachesKept(sc: Window, m: seq<Ext>, m': seq<Ext>)
    requires sc.Valid() && |m| == 5 && |m'| == 5
    requires Reaches(sc, m) && KeepsInsideCover(sc, m, m')
    ensures Reaches(sc, m')
  {
    if ExtLe(m'[0], m[0]) { ExtLeTrans(m'[0], m[0], Fin(sc.clipX)); } else { ExtLeTrans(m'[0], Fin(0.0), Fin(sc.clipX)); }
    if ExtLe(m[1], m'[1]) { ExtLeTrans(Fin(0.0), m[1], m'[1]); } else { ExtLeTrans(Fin(0.0), Fin(sc.clipX), m'[1]); }
    if ExtLe(m'[2], m[2]) { ExtLeTrans(m'[2], m[2], Fin(sc.clipY)); } else { ExtLeTrans(m'[2], Fin(0.0), Fin(sc.clipY)); }
    if ExtLe(m[3], m'[3]) { ExtLeTrans(Fin(0.0), m[3], m'[3]); } else { ExtLeTrans(Fin(0.0), Fin(sc.clipY), m'[3]); }
  }

  lemma CoverXYKept(sc: Window, m: seq<Ext>, m': seq<Ext>, x: real, y: real)
    requires |m| == 5 && |m'| == 5
    requires IsCoordinateInsideScreen(sc, x, y) && CoversXY(m, x, y) && KeepsInsideCover(sc, m, m')
    ensures CoversXY(m', x, y)
  {
    if ExtLe(m'[0], m[0]) { ExtLeTrans(m'[0], m[0], Fin(x)); } else { ExtLeTrans(m'[0], Fin(0.0), Fin(x)); }
    if ExtLe(m[1], m'[1]) { ExtLeTrans(Fin(x), m[1], m'[1]); } else { ExtLeTrans(Fin(x), Fin(sc.clipX), m'[1]); }
    if ExtLe(m'[2], m[2]) { ExtLeTrans(m'[2], m[2], Fin(y)); } else { ExtLeTrans(m'[2], Fin(0.0), Fin(y)); }
    if ExtLe(m[3], m'[3]) { ExtLeTrans(Fin(y), m[3], m'[3]); } else { ExtLeTrans(Fin(y), Fin(sc.clipY), m'[3]); }
  }

  /** The envelope covers each of the first n corners that lies on the screen. */
  ghost predicate CoversInside(sc: Window, vertices: seq<Vec4>, n: nat, m: seq<Ext>)
    requires n <= |vertices| && |m| == 5
  {
    forall j :: 0 <= j < n && IsCoordinateInsideScreen(sc, vertices[j].x, vertices[j].y) ==>
      Covers(m, vertices[j].x, vertices[j].y, vertices[j].w)
  }

  lemma CoverKeptOne(sc: Window, m: seq<Ext>, m': seq<Ext>, x: real, y: real, w: real)
    requires |m| == 5 && |m'| == 5
    requires IsCoordinateInsideScreen(sc, x, y) && Covers(m, x, y, w) && KeepsInsideCover(sc, m, m')
    ensures Covers(m', x, y, w)
  {
    CoverXYKept(sc, m, m', x, y);
    ExtLeTrans(Fin(w), m[4], m'[4]);
  }

  lemma CoverKept(sc: Window, vertices: seq<Vec4>, n: nat, m: seq<Ext>, m': seq<Ext>)
    requires n <= |vertices| && |m| == 5 && |m'| == 5
    requires CoversInside(sc, vertices, n, m) && KeepsInsideCover(sc, m, m')
    ensures CoversInside(sc, vertices, n, m')
  {
    forall j | 0 <= j < n && IsCoordinateInsideScreen(sc, vertices[j].x, vertices[j].y)
      ensures Covers(m', vertices[j].x, vertices[j].y, vertices[j].w)
    {
      CoverKeptOne(sc, m, m', vertices[j].x, vertices[j].y, vertices[j].w);
    }
  }

  lemma WrittenTrans(sc: Window, m0: seq<Ext>, m1: seq<Ext>, m2: seq<Ext>)
    requires |m0| == 5 && |m1| == 5 && |m2| == 5
    requires WrittenOnScreen(sc, m0, m1) && WrittenOnScreen(sc, m1, m2)
    ensures WrittenOnScreen(sc, m0, m2)
  {
  }

  lemma ExtLeRefl(e: Ext)
    ensures ExtLe(e, e)
  {
  }

  /** Widen [minX, maxX] to contain x. */
  method ExtendX(minmax: array<Ext>, x: real)
    requires minmax.Length == 5
    modifies minmax
    ensures minmax[0] == (if Lt(x, old(minmax[0])) then Fin(x) else old(minmax[0]))
    ensures minmax[1] == (if Gt(x, old(minmax[1])) then Fin(x) else old(minmax[1]))
    ensures minmax[2] == old(minmax[2]) && minmax[3] == old(minmax[3]) && minmax[4] == old(minmax[4])
  {
    if Gt(x, minmax[1]) {
      minmax[1] := Fin(x);
    }
    if Lt(x, minmax[0]) {
      minmax[0] := Fin(x);
    }
  }

  /** Widen [minY, maxY] to contain y. */
  method ExtendY(minmax: array<Ext>, y: real)
    requires minmax.Length == 5
    modifies minmax
    ensures minmax[2] == (if Lt(y, old(minmax[2])) then Fin(y) else old(minmax[2]))
    ensures minmax[3] == (if Gt(y, old(minmax[3])) then Fin(y) else old(minmax[3]))
    ensures minmax[0] == old(minmax[0]) && minmax[1] == old(minmax[1]) && minmax[4] == old(minmax[4])
  {
    if Gt(y, minmax[3]) {
      minmax[3] := Fin(y);
    }
    if Lt(y, minmax[2]) {
      minmax[2] := Fin(y);
    }
  }

  /** Keep the nearest depth (the largest 1/w). */
  method ExtendDepth(minmax: array<Ext>, w: real)
    requires minmax.Length == 5
    modifies minmax
    ensures minmax[4] == (if Gt(w, old(minmax[4])) then Fin(w) else old(minmax[4]))
    ensures ExtLe(old(minmax[4]), minmax[4])
    ensures minmax[0] == old(minmax[0]) && minmax[1] == old(minmax[1])
    ensures minmax[2] == old(minmax[2]) && minmax[3] == old(minmax[3])
  {
    if Gt(w, minmax[4]) {
      minmax[4] := Fin(w);
    }
  }

  /** Lines 574-587 of the source: the depth (1 - ratio) * wa + ratio * wb
      replaces the depth slot when it is nearer. */
  method InterpolatedDepth(minmax: array<Ext>, ratio: real, wa: real, wb: real)
    requires minmax.Length == 5
    modifies minmax
    ensures var d := (1.0 - ratio) * wa + ratio * wb;
      minmax[4] == (if Gt(d, old(minmax[4])) then Fin(d) else old(minmax[4]))
    ensures ExtLe(old(minmax[4]), minmax[4])
    ensures minmax[0] == old(minmax[0]) && minmax[1] == old(minmax[1])
    ensures minmax[2] == old(minmax[2]) && minmax[3] == old(minmax[3])
  {
    var depth := (1.0 - ratio) * wa + ratio * wb;
    ExtendDepth(minmax, depth);
  }

  /** A cut point on the top (top) or bottom border, at column x of the screen:
      maxY or minY is set to that border and [minX, maxX] widened to x. */
  method TakeRowCut(sc: Window, minmax: array<Ext>, top: bool, x: real)
    requires minmax.Length == 5 && 0.0 <= x <= sc.clipX && sc.Valid()
    modifies minmax
    ensures minmax[..] == (var m := old(minmax[..]); var m' := m[if top then 3 else 2 := Fin(if top then sc.clipY else 0.0)];
      [if Lt(x, m'[0]) then Fin(x) else m'[0], if Gt(x, m'[1]) then Fin(x) else m'[1], m'[2], m'[3], m'[4]])
    ensures WrittenOnScreen(sc, old(minmax[..]), minmax[..])
    ensures KeepsInsideCover(sc, old(minmax[..]), minmax[..])
    ensures Reaches(sc, old(minmax[..])) ==> CoversXY(minmax[..], x, if top then sc.clipY else 0.0)
  {
    ghost var m0 := minmax[..];
    minmax[if top then 3 else 2] := Fin(if top then sc.clipY else 0.0);
    ExtendX(minmax, x);
    ExtLeRefl(m0[4]);
  }

  /** A cut point on the right (right) or left border, at row y of the screen. */
  method TakeColumnCut(sc: Window, minmax: array<Ext>, right: bool, y: real)
    requires minmax.Length == 5 && 0.0 <= y <= sc.clipY && sc.Valid()
    modifies minmax
    ensures minmax[..] == (var m := old(minmax[..]); var m' := m[if right then 1 else 0 := Fin(if right then sc.clipX else 0.0)];
      [m'[0], m'[1], if Lt(y, m'[2]) then Fin(y) else m'[2], if Gt(y, m'[3]) then Fin(y) else m'[3], m'[4]])
    ensures WrittenOnScreen(sc, old(minmax[..]), minmax[..])
    ensures KeepsInsideCover(sc, old(minmax[..]), minmax[..])
    ensures Reaches(sc, old(minmax[..])) ==> CoversXY(minmax[..], if right then sc.clipX else 0.0, y)
  {
    ghost var m0 := minmax[..];
    minmax[if right then 1 else 0] := Fin(if right then sc.clipX else 0.0);
    ExtendY(minmax, y);
    ExtLeRefl(m0[4]);
  }

  /** One clipping step of an edge (lines 497-571 of the source): the outside
      endpoint p is moved to the first border it lies beyond, tested in the
      order above, below, right, left. When the new point is on the screen, the
      bound of that border is set to the border and the other axis's bounds are
      widened to the point. */
  method ClipStep(sc: Window, v1: Vec4, v2: Vec4, outsideCode: OutCode, minmax: array<Ext>,
                  ghost p: LinePoint, ghost q: LinePoint)
    returns (ratio: real, nextCode: OutCode, ghost r: LinePoint)
    requires sc.Valid() && minmax.Length == 5
    requires OnLine(v1, v2, p) && OnLine(v1, v2, q)
    requires outsideCode == Code(sc, p) && outsideCode != INSIDE && outsideCode & Code(sc, q) == 0
    modifies minmax
    ensures OnLine(v1, v2, r) && r.s == ratio && nextCode == Code(sc, r) && Between(r.s, p.s, q.s)
    ensures Pop(nextCode | Code(sc, q)) < Pop(outsideCode | Code(sc, q))
    ensures WrittenOnScreen(sc, old(minmax[..]), minmax[..])
    ensures KeepsInsideCover(sc, old(minmax[..]), minmax[..])
    ensures Reaches(sc, old(minmax[..])) && nextCode == INSIDE ==> CoversXY(minmax[..], r.x, r.y)
  {
    ghost var m0 := minmax[..];
    if outsideCode & ABOVE != 0 {
      var tx;
      ratio, tx := RowCrossing(sc, v1, v2, sc.clipY, ABOVE, p, q);
      r := LinePoint(ratio, tx, sc.clipY);
      nextCode := CalculateOutCode(sc, tx, sc.clipY);
      if nextCode == INSIDE {
        TakeRowCut(sc, minmax, true, tx);
      }
    } else if outsideCode & BELOW != 0 {
      var tx;
      ratio, tx := RowCrossing(sc, v1, v2, 0.0, BELOW, p, q);
      r := LinePoint(ratio, tx, 0.0);
      nextCode := CalculateOutCode(sc, tx, 0.0);
      if nextCode == INSIDE {
        TakeRowCut(sc, minmax, false, tx);
      }
    } else if outsideCode & RIGHT != 0 {
      var ty;
      ratio, ty := ColumnCrossing(sc, v1, v2, sc.clipX, RIGHT, p, q);
      r := LinePoint(ratio, sc.clipX, ty);
      nextCode := CalculateOutCode(sc, sc.clipX, ty);
      if nextCode == INSIDE {
        TakeColumnCut(sc, minmax, true, ty);
      }
    } else {
      assert outsideCode & LEFT != 0;
      var ty;
      ratio, ty := ColumnCrossing(sc, v1, v2, 0.0, LEFT, p, q);
      r := LinePoint(ratio, 0.0, ty);
      nextCode := CalculateOutCode(sc, 0.0, ty);
      if nextCode == INSIDE {
        TakeColumnCut(sc, minmax, false, ty);
      }
    }
    ExtLeRefl(m0[4]);
  }

  /** What one pass of the clipping loop keeps: m0 at the start of the edge,
      m1 before the cut, m2 after it, m3 after the depth update. */
  lemma EnvelopeStep(sc: Window, vertices: seq<Vec4>, m0: seq<Ext>, m1: seq<Ext>, m2: seq<Ext>, m3: seq<Ext>)
    requires |m0| == 5 && |m1| == 5 && |m2| == 5 && |m3| == 5
    requires WrittenOnScreen(sc, m0, m1) && ExtLe(m0[4], m1[4]) && CoversInside(sc, vertices, |vertices|, m1)
    requires WrittenOnScreen(sc, m1, m2) && KeepsInsideCover(sc, m1, m2)
    requires m3[0] == m2[0] && m3[1] == m2[1] && m3[2] == m2[2] && m3[3] == m2[3] && ExtLe(m2[4], m3[4])
    ensures WrittenOnScreen(sc, m0, m3) && ExtLe(m0[4], m3[4]) && CoversInside(sc, vertices, |vertices|, m3)
  {
    WrittenTrans(sc, m0, m1, m2);
    CoverKept(sc, vertices, |vertices|, m1, m2);
    ExtLeRefl(m2[0]);
    ExtLeRefl(m2[1]);
    ExtLeRefl(m2[2]);
    ExtLeRefl(m2[3]);
    CoverKept(sc, vertices, |vertices|, m2, m3);
    ExtLeTrans(m1[4], m2[4], m3[4]);
    ExtLeTrans(m0[4], m1[4], m3[4]);
  }

  /** One pass of the clipping loop (lines 497-587 of the source): the outside
      endpoint moves to a border, its code is replaced by the new point's code,
      and the depth slot takes the interpolated depth. The depth of the second
      endpoint weights the endpoints the other way round (line 581). */
  method ClipPass(sc: Window, v1: Vec4, v2: Vec4, outcode1: OutCode, outcode2: OutCode, minmax: array<Ext>,
                  ghost p1: LinePoint, ghost p2: LinePoint, ghost vertices: seq<Vec4>)
    returns (next1: OutCode, next2: OutCode, ghost q1: LinePoint, ghost q2: LinePoint)
    requires sc.Valid() && minmax.Length == 5
    requires OnLine(v1, v2, p1) && OnLine(v1, v2, p2)
    requires outcode1 == Code(sc, p1) && outcode2 == Code(sc, p2)
    requires (outcode1 | outcode2) != 0 && (outcode1 & outcode2) == 0
    requires CoversInside(sc, vertices, |vertices|, minmax[..])
    modifies minmax
    ensures OnLine(v1, v2, q1) && OnLine(v1, v2, q2)
    ensures next1 == Code(sc, q1) && next2 == Code(sc, q2)
    ensures Pop(next1 | next2) < Pop(outcode1 | outcode2)
    ensures outcode1 != INSIDE ==> q2 == p2 && Between(q1.s, p1.s, p2.s)
    ensures outcode1 == INSIDE ==> q1 == p1 && Between(q2.s, p1.s, p2.s)
    ensures WrittenOnScreen(sc, old(minmax[..]), minmax[..])
    ensures ExtLe(old(minmax[4]), minmax[4])
    ensures CoversInside(sc, vertices, |vertices|, minmax[..])
    ensures KeepsInsideCover(sc, old(minmax[..]), minmax[..])
    ensures Reaches(sc, old(minmax[..])) && outcode1 != INSIDE && next1 == INSIDE ==> CoversXY(minmax[..], q1.x, q1.y)
    ensures Reaches(sc, old(minmax[..])) && outcode2 != INSIDE && next2 == INSIDE ==> CoversXY(minmax[..], q2.x, q2.y)
  {
    ghost var m1 := minmax[..];
    ExtLeRefl(m1[4]);
    // The source picks outsideCode = outcode1 ? outcode1 : outcode2 and later
    // tests outsideCode === outcode1; with the union non-zero, both tests are
    // outcode1 != 0, so the two are taken as one branch here.
    ghost var m2;
    if outcode1 != 0 {
      var ratio, nextCode, r := ClipStep(sc, v1, v2, outcode1, minmax, p1, p2);
      m2 := minmax[..];
      next1, next2, q1, q2 := nextCode, outcode2, r, p2;
      InterpolatedDepth(minmax, ratio, v1.w, v2.w);
    } else {
      var ratio, nextCode, r := ClipStep(sc, v1, v2, outcode2, minmax, p2, p1);
      m2 := minmax[..];
      assert outcode1 | outcode2 == outcode2 | outcode1;
      next1, next2, q1, q2 := outcode1, nextCode, p1, r;
      InterpolatedDepth(minmax, ratio, v2.w, v1.w);
    }
    EnvelopeStep(sc, vertices, m1, m1, m2, minmax[..]);
    ExtLeRefl(m2[0]);
    ExtLeRefl(m2[1]);
    ExtLeRefl(m2[2]);
    ExtLeRefl(m2[3]);
    KeepsTrans(sc, m1, m2, minmax[..]);
  }

  /** The loop accepts the segment (both codes zero) or rejects it (a
      border both endpoints lie beyond). */
  predicate Trivial(code1: OutCode, code2: OutCode) {
    (code1 | code2) == 0 || (code1 & code2) != 0
  }

  /** q1 and q2 are where the clipping loop leaves the endpoints of the edge
      v1 -> v2: points of the edge itself, accepted or rejected. */
  predicate ClippedEdge(sc: Window, v1: Vec4, v2: Vec4, q1: LinePoint, q2: LinePoint) {
    OnLine(v1, v2, q1) && OnLine(v1, v2, q2) && 0.0 <= q1.s <= 1.0 && 0.0 <= q2.s <= 1.0 &&
    Trivial(Code(sc, q1), Code(sc, q2))
  }

  /** Once the envelope m0 has reached the screen, each endpoint that began
      outside (code in1, in2) and now lies on the screen (code c1, c2), a cut,
      is covered by m. */
  ghost predicate CutsCovered(sc: Window, m0: seq<Ext>, m: seq<Ext>, in1: OutCode, in2: OutCode,
                              c1: OutCode, c2: OutCode, p1: LinePoint, p2: LinePoint)
    requires |m0| == 5 && |m| == 5
  {
    Reaches(sc, m0) ==>
      (in1 != INSIDE && c1 == INSIDE ==> CoversXY(m, p1.x, p1.y)) &&
      (in2 != INSIDE && c2 == INSIDE ==> CoversXY(m, p2.x, p2.y))
  }

  /** One pass of the clipping loop keeps the cuts covered: the endpoint it
      moves is covered when it lands on the screen, the other keeps its cover. */
  lemma CutsCoveredStep(sc: Window, m0: seq<Ext>, m1: seq<Ext>, m2: seq<Ext>, in1: OutCode, in2: OutCode,
                        o1: OutCode, o2: OutCode, r1: LinePoint, r2: LinePoint,
                        n1: OutCode, n2: OutCode, q1: LinePoint, q2: LinePoint)
    requires sc.Valid() && |m0| == 5 && |m1| == 5 && |m2| == 5
    requires KeepsInsideCover(sc, m0, m1) && KeepsInsideCover(sc, m1, m2)
    requires CutsCovered(sc, m0, m1, in1, in2, o1, o2, r1, r2)
    requires o1 == INSIDE ==> IsCoordinateInsideScreen(sc, r1.x, r1.y)
    requires o2 == INSIDE ==> IsCoordinateInsideScreen(sc, r2.x, r2.y)
    requires o1 != INSIDE ==> q2 == r2 && n2 == o2
    requires o1 == INSIDE ==> q1 == r1 && n1 == o1 && o2 != INSIDE
    requires Reaches(sc, m1) && o1 != INSIDE && n1 == INSIDE ==> CoversXY(m2, q1.x, q1.y)
    requires Reaches(sc, m1) && o2 != INSIDE && n2 == INSIDE ==> CoversXY(m2, q2.x, q2.y)
    ensures CutsCovered(sc, m0, m2, in1, in2, n1, n2, q1, q2)
  {
    if Reaches(sc, m0) {
      ReachesKept(sc, m0, m1);
      if o1 == INSIDE && in1 != INSIDE {
        CoverXYKept(sc, m1, m2, r1.x, r1.y);
      }
      if o2 == INSIDE && in2 != INSIDE {
        CoverXYKept(sc, m1, m2, r2.x, r2.y);
      }
    }
  }

  /** The invariant of the clipping loop of the edge v1 -> v2, which began
      with the envelope m0 and the codes in1 and in2: the endpoints p1 and p2
      (codes c1 and c2) lie on the edge, the envelope m keeps what m0 covered,
      an endpoint that began on the screen has not moved, and the cuts are
      covered. */
  ghost predicate EdgeInv(sc: Window, v1: Vec4, v2: Vec4, vertices: seq<Vec4>, m0: seq<Ext>, in1: OutCode, in2: OutCode,
                          m: seq<Ext>, c1: OutCode, c2: OutCode, p1: LinePoint, p2: LinePoint)
  {
    |m0| == 5 && |m| == 5 &&
    OnLine(v1, v2, p1) && OnLine(v1, v2, p2) && 0.0 <= p1.s <= 1.0 && 0.0 <= p2.s <= 1.0 &&
    c1 == Code(sc, p1) && c2 == Code(sc, p2) &&
    WrittenOnScreen(sc, m0, m) && ExtLe(m0[4], m[4]) && CoversInside(sc, vertices, |vertices|, m) &&
    KeepsInsideCover(sc, m0, m) &&
    (in1 == INSIDE ==> p1 == LinePoint(0.0, v1.x, v1.y) && c1 == INSIDE) &&
    (in2 == INSIDE ==> p2 == LinePoint(1.0, v2.x, v2.y) && c2 == INSIDE) &&
    (Trivial(in1, in2) ==> m == m0 && c1 == in1 && c2 == in2) &&
    CutsCovered(sc, m0, m, in1, in2, c1, c2, p1, p2)
  }

  lemma EdgeInvStart(sc: Window, v1: Vec4, v2: Vec4, vertices: seq<Vec4>, m0: seq<Ext>, in1: OutCode, in2: OutCode)
    requires |m0| == 5 && CoversInside(sc, vertices, |vertices|, m0)
    requires in1 == CalculateOutCode(sc, v1.x, v1.y) && in2 == CalculateOutCode(sc, v2.x, v2.y)
    ensures EdgeInv(sc, v1, v2, vertices, m0, in1, in2, m0, in1, in2, LinePoint(0.0, v1.x, v1.y), LinePoint(1.0, v2.x, v2.y))
  {
    ExtLeRefl(m0[4]);
    KeepsRefl(sc, m0);
  }

  /** One pass of the clipping loop, with the facts ClipPass establishes,
      keeps the loop invariant. */
  lemma EdgeInvStep(sc: Window, v1: Vec4, v2: Vec4, vertices: seq<Vec4>, m0: seq<Ext>, in1: OutCode, in2: OutCode,
                    m1: seq<Ext>, o1: OutCode, o2: OutCode, r1: LinePoint, r2: LinePoint,
                    m2: seq<Ext>, n1: OutCode, n2: OutCode, q1: LinePoint, q2: LinePoint)
    requires sc.Valid() && |m2| == 5
    requires EdgeInv(sc, v1, v2, vertices, m0, in1, in2, m1, o1, o2, r1, r2)
    requires (o1 | o2) != 0 && (o1 & o2) == 0
    requires OnLine(v1, v2, q1) && OnLine(v1, v2, q2) && n1 == Code(sc, q1) && n2 == Code(sc, q2)
    requires o1 != INSIDE ==> q2 == r2 && Between(q1.s, r1.s, r2.s)
    requires o1 == INSIDE ==> q1 == r1 && Between(q2.s, r1.s, r2.s)
    requires WrittenOnScreen(sc, m1, m2) && ExtLe(m1[4], m2[4]) && CoversInside(sc, vertices, |vertices|, m2)
    requires KeepsInsideCover(sc, m1, m2)
    requires Reaches(sc, m1) && o1 != INSIDE && n1 == INSIDE ==> CoversXY(m2, q1.x, q1.y)
    requires Reaches(sc, m1) && o2 != INSIDE && n2 == INSIDE ==> CoversXY(m2, q2.x, q2.y)
    ensures EdgeInv(sc, v1, v2, vertices, m0, in1, in2, m2, n1, n2, q1, q2)
  {
    WrittenTrans(sc, m0, m1, m2);
    ExtLeTrans(m0[4], m1[4], m2[4]);
    KeepsTrans(sc, m0, m1, m2);
    assert o1 == INSIDE ==> o2 != INSIDE;
    CutsCoveredStep(sc, m0, m1, m2, in1, in2, o1, o2, r1, r2, n1, n2, q1, q2);
  }

  /** The clipping loop of one edge (lines 460-588 of the source). v1 and v2
      stay the edge's original endpoints: every ratio is measured from them.
      The loop ends because each pass shrinks the union of the two codes. */
  method ClipEdge(sc: Window, v1: Vec4, v2: Vec4, outcode1: OutCode, outcode2: OutCode,
                  minmax: array<Ext>, ghost vertices: seq<Vec4>)
    returns (ghost q1: LinePoint, ghost q2: LinePoint)
    requires sc.Valid() && minmax.Length == 5
    requires outcode1 == CalculateOutCode(sc, v1.x, v1.y) && outcode2 == CalculateOutCode(sc, v2.x, v2.y)
    requires CoversInside(sc, vertices, |vertices|, minmax[..])
    modifies minmax
    ensures WrittenOnScreen(sc, old(minmax[..]), minmax[..])
    ensures ExtLe(old(minmax[4]), minmax[4])
    ensures CoversInside(sc, vertices, |vertices|, minmax[..])
    ensures KeepsInsideCover(sc, old(minmax[..]), minmax[..])
    ensures ClippedEdge(sc, v1, v2, q1, q2)
    ensures outcode1 == INSIDE ==> q1 == LinePoint(0.0, v1.x, v1.y)
    ensures outcode2 == INSIDE ==> q2 == LinePoint(1.0, v2.x, v2.y)
    ensures Trivial(outcode1, outcode2) ==> minmax[..] == old(minmax[..])
    ensures Reaches(sc, old(minmax[..])) && outcode1 != INSIDE && Code(sc, q1) == INSIDE ==> CoversXY(minmax[..], q1.x, q1.y)
    ensures Reaches(sc, old(minmax[..])) && outcode2 != INSIDE && Code(sc, q2) == INSIDE ==> CoversXY(minmax[..], q2.x, q2.y)
  {
    ghost var m0 := minmax[..];
    ghost var in1, in2 := outcode1, outcode2;
    var outcode1, outcode2 := outcode1, outcode2;
    ghost var p1, p2 := LinePoint(0.0, v1.x, v1.y), LinePoint(1.0, v2.x, v2.y);
    EdgeInvStart(sc, v1, v2, vertices, m0, in1, in2);
    while true
      invariant EdgeInv(sc, v1, v2, vertices, m0, in1, in2, minmax[..], outcode1, outcode2, p1, p2)
      decreases Pop(outcode1 | outcode2)
    {
      if (outcode1 | outcode2) == 0 || (outcode1 & outcode2) != 0 {
        break;
      }
      ghost var m1, o1, o2, r1, r2 := minmax[..], outcode1, outcode2, p1, p2;
      outcode1, outcode2, p1, p2 := ClipPass(sc, v1, v2, outcode1, outcode2, minmax, p1, p2, vertices);
      EdgeInvStep(sc, v1, v2, vertices, m0, in1, in2, m1, o1, o2, r1, r2, minmax[..], outcode1, outcode2, p1, p2);
    }
    q1, q2 := p1, p2;
  }

  /** Lines 430-455 of the source: the code of corner i; a corner on the screen
      widens the envelope to its x, y and depth. */
  method AddCorner(sc: Window, vertices: seq<Vec4>, i: nat, minmax: array<Ext>) returns (code: OutCode)
    requires i < |vertices| && minmax.Length == 5
    requires CoversInside(sc, vertices, i, minmax[..])
    modifies minmax
    ensures code == CalculateOutCode(sc, vertices[i].x, vertices[i].y)
    ensures minmax[..] == if code == INSIDE then Widen(old(minmax[..]), vertices[i]) else old(minmax[..])
    ensures WrittenOnScreen(sc, old(minmax[..]), minmax[..])
    ensures ExtLe(old(minmax[4]), minmax[4])
    ensures CoversInside(sc, vertices, i + 1, minmax[..])
  {
    ghost var m0 := minmax[..];
    var vert := vertices[i];
    code := CalculateOutCode(sc, vert.x, vert.y);
    if code == INSIDE {
      ExtendDepth(minmax, vert.w);
      ExtendX(minmax, vert.x);
      ExtendY(minmax, vert.y);
      assert minmax[..] == Widen(m0, vert);
      CoverKept(sc, vertices, i, m0, minmax[..]);
    } else {
      ExtLeRefl(m0[4]);
    }
  }

  /** After the corner loop, an envelope that covers a corner on the screen
      has reached the screen. */
  lemma InsideCornerReaches(sc: Window, vertices: seq<Vec4>, m: seq<Ext>)
    requires |m| == 5 && AnyInside(sc, vertices) && CoversInside(sc, vertices, |vertices|, m)
    ensures Reaches(sc, m)
  {
    var i :| 0 <= i < |vertices| && IsCoordinateInsideScreen(sc, vertices[i].x, vertices[i].y);
    CoversReaches(sc, m, vertices[i].x, vertices[i].y);
  }

  /** The endpoints of every accepted clipped edge among the first n lie in
      the envelope's rectangle. */
  ghost predicate CoversClipped(sc: Window, clipped: seq<(LinePoint, LinePoint)>, n: nat, m: seq<Ext>)
    requires n <= |clipped| && |m| == 5
  {
    forall k :: 0 <= k < n && Code(sc, clipped[k].0) | Code(sc, clipped[k].1) == 0 ==>
      CoversXY(m, clipped[k].0.x, clipped[k].0.y) && CoversXY(m, clipped[k].1.x, clipped[k].1.y)
  }

  lemma CoversClippedKept(sc: Window, clipped: seq<(LinePoint, LinePoint)>, n: nat, m: seq<Ext>, m': seq<Ext>)
    requires sc.Valid() && n <= |clipped| && |m| == 5 && |m'| == 5
    requires CoversClipped(sc, clipped, n, m) && KeepsInsideCover(sc, m, m')
    ensures CoversClipped(sc, clipped, n, m')
  {
    forall k | 0 <= k < n && Code(sc, clipped[k].0) | Code(sc, clipped[k].1) == 0
      ensures CoversXY(m', clipped[k].0.x, clipped[k].0.y) && CoversXY(m', clipped[k].1.x, clipped[k].1.y)
    {
      var c0, c1 := Code(sc, clipped[k].0), Code(sc, clipped[k].1);
      assert c0 == INSIDE && c1 == INSIDE by {
        assert c0 | c1 == 0;
        BitsWithin(c0, c0 | c1);
        BitsWithin(c1, c0 | c1);
      }
      CoverXYKept(sc, m, m', clipped[k].0.x, clipped[k].0.y);
      CoverXYKept(sc, m, m', clipped[k].1.x, clipped[k].1.y);
    }
  }

  /** An accepted endpoint of a clipped edge is covered: either it is the
      original corner, on the screen and covered by the corner loop, or a
      cut the clipping loop covered. */
  lemma ClippedEndCovered(sc: Window, vertices: seq<Vec4>, a: nat, start: bool, code: OutCode, q: LinePoint, m: seq<Ext>)
    requires a < |vertices| && |m| == 5 && CoversInside(sc, vertices, |vertices|, m)
    requires code == CalculateOutCode(sc, vertices[a].x, vertices[a].y)
    requires code == INSIDE ==> q == LinePoint(if start then 0.0 else 1.0, vertices[a].x, vertices[a].y)
    requires code != INSIDE && Code(sc, q) == INSIDE ==> CoversXY(m, q.x, q.y)
    requires Code(sc, q) == INSIDE
    ensures CoversXY(m, q.x, q.y)
  {
    if code == INSIDE {
      assert IsCoordinateInsideScreen(sc, vertices[a].x, vertices[a].y);
    }
  }

  /** The invariant of the edge loop after n edges: the envelope m keeps
      what init and the corner loop (corners) gave it, is the corner envelope
      when every corner is on the screen, and covers every accepted clipped
      edge so far once a corner is on the screen. */
  ghost predicate BoxEdgeInv(sc: Window, vertices: seq<Vec4>, init: seq<Ext>, corners: seq<Ext>, codes: seq<OutCode>,
                             m: seq<Ext>, clipped: seq<(LinePoint, LinePoint)>, n: nat)
  {
    |vertices| == 8 && |codes| == 8 && |init| == 5 && |m| == 5 && n <= 12 && |clipped| == n &&
    WrittenOnScreen(sc, init, m) && ExtLe(init[4], m[4]) &&
    (forall j :: 0 <= j < 8 ==> codes[j] == CalculateOutCode(sc, vertices[j].x, vertices[j].y)) &&
    CoversInside(sc, vertices, 8, m) &&
    (AllInside(sc, vertices) ==> m == corners) &&
    (AnyInside(sc, vertices) ==> Reaches(sc, m) && CoversClipped(sc, clipped, n, m)) &&
    forall k :: 0 <= k < n ==>
      var e := GenerateBoundingBoxEdgeIndices()[k]; ClippedEdge(sc, vertices[e.0], vertices[e.1], clipped[k].0, clipped[k].1)
  }

  /** Clipping edge n, with the facts ClipEdge establishes, keeps the edge
      loop's invariant. */
  lemma BoxEdgeStep(sc: Window, vertices: seq<Vec4>, init: seq<Ext>, corners: seq<Ext>, codes: seq<OutCode>,
                    m1: seq<Ext>, clipped: seq<(LinePoint, LinePoint)>, n: nat, m2: seq<Ext>, q1: LinePoint, q2: LinePoint)
    requires sc.Valid() && BoxEdgeInv(sc, vertices, init, corners, codes, m1, clipped, n) && n < 12 && |m2| == 5
    requires var e := GenerateBoundingBoxEdgeIndices()[n]; var v1, v2 := vertices[e.0], vertices[e.1];
      WrittenOnScreen(sc, m1, m2) && ExtLe(m1[4], m2[4]) && CoversInside(sc, vertices, 8, m2) &&
      KeepsInsideCover(sc, m1, m2) && ClippedEdge(sc, v1, v2, q1, q2) &&
      (codes[e.0] == INSIDE ==> q1 == LinePoint(0.0, v1.x, v1.y)) &&
      (codes[e.1] == INSIDE ==> q2 == LinePoint(1.0, v2.x, v2.y)) &&
      (Trivial(codes[e.0], codes[e.1]) ==> m2 == m1) &&
      (Reaches(sc, m1) && codes[e.0] != INSIDE && Code(sc, q1) == INSIDE ==> CoversXY(m2, q1.x, q1.y)) &&
      (Reaches(sc, m1) && codes[e.1] != INSIDE && Code(sc, q2) == INSIDE ==> CoversXY(m2, q2.x, q2.y))
    ensures BoxEdgeInv(sc, vertices, init, corners, codes, m2, clipped + [(q1, q2)], n + 1)
  {
    var e := GenerateBoundingBoxEdgeIndices()[n];
    var a, b := e.0, e.1;
    var clipped' := clipped + [(q1, q2)];
    WrittenTrans(sc, init, m1, m2);
    ExtLeTrans(init[4], m1[4], m2[4]);
    if AllInside(sc, vertices) {
      assert IsCoordinateInsideScreen(sc, vertices[a].x, vertices[a].y);
      assert IsCoordinateInsideScreen(sc, vertices[b].x, vertices[b].y);
    }
    if AnyInside(sc, vertices) {
      ReachesKept(sc, m1, m2);
      CoversClippedKept(sc, clipped, n, m1, m2);
      if Code(sc, q1) | Code(sc, q2) == 0 {
        assert Code(sc, q1) == INSIDE && Code(sc, q2) == INSIDE by {
          BitsWithin(Code(sc, q1), Code(sc, q1) | Code(sc, q2));
          BitsWithin(Code(sc, q2), Code(sc, q1) | Code(sc, q2));
        }
        ClippedEndCovered(sc, vertices, a, true, codes[a], q1, m2);
        ClippedEndCovered(sc, vertices, b, false, codes[b], q2, m2);
      }
      assert CoversClipped(sc, clipped', n + 1, m2);
    }
    assert forall k :: 0 <= k < n ==> clipped'[k] == clipped[k];
  }

  /** The first loop of _cohenSutherlandClipBox: computes the outcode of
      every corner and widens the envelope by the corners on the screen. */
  method AddCorners(sc: Window, vertices: seq<Vec4>, minmax: array<Ext>) returns (outCodes: array<OutCode>)
    requires |vertices| == 8 && minmax.Length == 5
    modifies minmax
    ensures fresh(outCodes) && outCodes.Length == 8
    ensures forall j :: 0 <= j < 8 ==> outCodes[j] == CalculateOutCode(sc, vertices[j].x, vertices[j].y)
    ensures WrittenOnScreen(sc, old(minmax[..]), minmax[..])
    ensures ExtLe(old(minmax[4]), minmax[4])
    ensures CoversInside(sc, vertices, 8, minmax[..])
    ensures minmax[..] == CornerEnvelope(sc, old(minmax[..]), vertices, 8)
  {
    ghost var init := minmax[..];
    ExtLeRefl(init[4]);
    outCodes := new OutCode[8];
    for i := 0 to 8
      invariant WrittenOnScreen(sc, init, minmax[..])
      invariant ExtLe(init[4], minmax[4])
      invariant forall j :: 0 <= j < i ==> outCodes[j] == CalculateOutCode(sc, vertices[j].x, vertices[j].y)
      invariant CoversInside(sc, vertices, i, minmax[..])
      invariant minmax[..] == CornerEnvelope(sc, init, vertices, i)
    {
      ghost var m1 := minmax[..];
      outCodes[i] := AddCorner(sc, vertices, i, minmax);
      WrittenTrans(sc, init, m1, minmax[..]);
      ExtLeTrans(init[4], m1[4], minmax[4]);
    }
  }

  /** _cohenSutherlandClipBox: accumulates into minmax the envelope of the
      screen-space box corners that lie on the screen and of the points where
      the box edges cross the screen border on the screen; the depth slot takes
      the depth of every inside corner and of every intersection computed.
      clipped holds, for each of the twelve edges of the table, where the
      clipping loop left its endpoints. When every corner is on the screen
      the clipping changes nothing and the envelope is the corner envelope;
      once a corner is on the screen, every accepted clipped edge lies in
      the envelope's rectangle. */
  method CohenSutherlandClipBox(sc: Window, vertices: seq<Vec4>, minmax: array<Ext>)
    returns (ghost clipped: seq<(LinePoint, LinePoint)>)
    requires sc.Valid() && |vertices| == 8 && minmax.Length == 5
    modifies minmax
    ensures WrittenOnScreen(sc, old(minmax[..]), minmax[..])
    ensures ExtLe(old(minmax[4]), minmax[4])
    ensures forall i :: 0 <= i < 8 && IsCoordinateInsideScreen(sc, vertices[i].x, vertices[i].y) ==>
      Covers(minmax[..], vertices[i].x, vertices[i].y, vertices[i].w)
    ensures AllInside(sc, vertices) ==> minmax[..] == CornerEnvelope(sc, old(minmax[..]), vertices, 8)
    ensures |clipped| == 12
    ensures forall k :: 0 <= k < 12 ==>
      var e := GenerateBoundingBoxEdgeIndices()[k]; ClippedEdge(sc, vertices[e.0], vertices[e.1], clipped[k].0, clipped[k].1)
    ensures AnyInside(sc, vertices) ==> CoversClipped(sc, clipped, 12, minmax[..])
  {
    ghost var init := minmax[..];
    var outCodes := AddCorners(sc, vertices, minmax);
    ghost var corners := minmax[..];
    if AnyInside(sc, vertices) {
      InsideCornerReaches(sc, vertices, corners);
    }
    KeepsRefl(sc, corners);

    clipped := [];
    for edgeIndex := 0 to 12
      invariant BoxEdgeInv(sc, vertices, init, corners, outCodes[..], minmax[..], clipped, edgeIndex)
    {
      clipped := ClipBoxEdge(sc, vertices, init, corners, outCodes, minmax, clipped, edgeIndex);
    }
  }

  /** One iteration of the edge loop of _cohenSutherlandClipBox: clips the
      table edge at edgeIndex and records where its endpoints were left. */
  method ClipBoxEdge(sc: Window, vertices: seq<Vec4>, ghost init: seq<Ext>, ghost corners: seq<Ext>,
                     outCodes: array<OutCode>, minmax: array<Ext>, ghost clipped: seq<(LinePoint, LinePoint)>,
                     edgeIndex: nat)
    returns (ghost clipped': seq<(LinePoint, LinePoint)>)
    requires sc.Valid() && minmax.Length == 5 && edgeIndex < 12
    requires BoxEdgeInv(sc, vertices, init, corners, outCodes[..], minmax[..], clipped, edgeIndex)
    modifies minmax
    ensures BoxEdgeInv(sc, vertices, init, corners, outCodes[..], minmax[..], clipped', edgeIndex + 1)
  {
    var edges := GenerateBoundingBoxEdgeIndices();
    var a, b := edges[edgeIndex].0, edges[edgeIndex].1;
    ghost var m1 := minmax[..];
    ghost var q1, q2 := ClipEdge(sc, vertices[a], vertices[b], outCodes[a], outCodes[b], minmax, vertices);
    BoxEdgeStep(sc, vertices, init, corners, outCodes[..], m1, clipped, edgeIndex, minmax[..], q1, q2);
    clipped' := clipped + [(q1, q2)];
  }
}
