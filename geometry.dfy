/** Value types shared by the occlusion rasterizer: homogeneous vertices, 4x4
    matrices, triangles, screen-space edges, the screen rectangle and the
    JavaScript rounding functions the rasterizer applies to coordinates. */
module Geometry {

  datatype Option<T> = None | Some(value: T)

  /** goo's Vector4, used as a homogeneous coordinate (x, y, z, w). */
  datatype Vec4 = Vec4(x: real, y: real, z: real, w: real)

  /** The initial value of goo's shared constant Vector4.UNIT_W. */
  const UnitW := Vec4(0.0, 0.0, 0.0, 1.0)

  /** goo's Matrix4x4: sixteen entries in column-major order. */
  type Matrix4x4 = m: seq<real> | |m| == 16 witness seq(16, _ => 0.0)

  /** Matrix4x4.applyPost: the column vector m * v. */
  function ApplyPost(m: Matrix4x4, v: Vec4): Vec4 {
    Vec4(m[0] * v.x + m[4] * v.y + m[8] * v.z + m[12] * v.w,
         m[1] * v.x + m[5] * v.y + m[9] * v.z + m[13] * v.w,
         m[2] * v.x + m[6] * v.y + m[10] * v.z + m[14] * v.w,
         m[3] * v.x + m[7] * v.y + m[11] * v.z + m[15] * v.w)
  }

  /** Matrix4x4.combine(a, b): the product a * b, which applies b first. */
  function Combine(a: Matrix4x4, b: Matrix4x4): Matrix4x4 {
    seq(16, i requires 0 <= i < 16 =>
      var col, row := i / 4, i % 4;
      a[row] * b[4 * col] + a[4 + row] * b[4 * col + 1]
        + a[8 + row] * b[4 * col + 2] + a[12 + row] * b[4 * col + 3])
  }

  /** goo's Triangle: three vertices. */
  datatype Triangle = Triangle(v1: Vec4, v2: Vec4, v3: Vec4)

  /** goo's Edge between two screen-space vertices, ordered so that y0 <= y1;
      the depth of an endpoint is the vertex's w. */
  datatype Edge = Edge(x0: real, y0: real, z0: real, x1: real, y1: real, z1: real)

  /** An edge after its coordinates have been rounded to pixels. */
  datatype PixelEdge = PixelEdge(x0: int, y0: int, z0: real, x1: int, y1: int, z1: real)

  /** new Edge(a, b): the endpoint with the smaller y comes first. */
  function MakeEdge(a: Vec4, b: Vec4): (e: Edge)
    ensures e.y0 <= e.y1
    ensures (e.x0, e.y0, e.z0, e.x1, e.y1, e.z1) == (a.x, a.y, a.w, b.x, b.y, b.w)
         || (e.x0, e.y0, e.z0, e.x1, e.y1, e.z1) == (b.x, b.y, b.w, a.x, a.y, a.w)
  {
    if a.y <= b.y then Edge(a.x, a.y, a.w, b.x, b.y, b.w)
    else Edge(b.x, b.y, b.w, a.x, a.y, a.w)
  }

  /** JavaScript's Math.floor, Math.ceil and Math.round (round half up). */
  function Floor(x: real): int { x.Floor }
  function Ceil(x: real): int { -((-x).Floor) }
  function JsRound(x: real): int { (x + 0.5).Floor }

  lemma RoundingBounds(x: real)
    ensures Floor(x) as real <= x < Floor(x) as real + 1.0
    ensures Ceil(x) as real - 1.0 < x <= Ceil(x) as real
    ensures x - 0.5 < JsRound(x) as real <= x + 0.5
  {
  }

  lemma RoundingMonotone(a: real, b: real)
    requires a <= b
    ensures Floor(a) <= Floor(b) && Ceil(a) <= Ceil(b) && JsRound(a) <= JsRound(b)
  {
  }

  /** 1 / z, as Edge.invertZ and the divisions by w compute it. For z = 0
      JavaScript gives Infinity, which a real cannot hold; the model takes 0. */
  function Recip(z: real): real {
    if z == 0.0 then 0.0 else 1.0 / z
  }

  /** Edge.roundOccluderCoordinates followed by Edge.invertZ: every coordinate
      rounded to the nearest pixel, depths replaced by their reciprocals. */
  function RoundOccluderEdge(e: Edge): (p: PixelEdge)
    requires e.y0 <= e.y1
    ensures p.y0 <= p.y1
  {
    RoundingMonotone(e.y0, e.y1);
    PixelEdge(JsRound(e.x0), JsRound(e.y0), Recip(e.z0), JsRound(e.x1), JsRound(e.y1), Recip(e.z1))
  }

  /** Edge.roundOccludeeCoordinates followed by Edge.invertZ: x rounded to the
      nearest pixel, the vertical extent shrunk to the whole scanlines it covers. */
  function RoundOccludeeEdge(e: Edge): PixelEdge {
    PixelEdge(JsRound(e.x0), Ceil(e.y0), Recip(e.z0), JsRound(e.x1), Floor(e.y1), Recip(e.z1))
  }

  /** The pixel rectangle of a renderer: columns 0..ClipX(), rows 0..ClipY(),
      stored row by row in a buffer of width * height values. */
  datatype Screen = Screen(width: nat, height: nat) {
    predicate Valid() { width > 0 && height > 0 }
    function ClipX(): int { width - 1 }
    function ClipY(): int { height - 1 }
    function Size(): nat { width * height }
    function Index(x: int, y: int): int { y * width + x }
    predicate OnScreen(x: int, y: int) { 0 <= x <= ClipX() && 0 <= y <= ClipY() }
  }

  /** Every on-screen pixel has its own slot in the buffer. */
  lemma IndexInRange(s: Screen, x: int, y: int)
    requires s.OnScreen(x, y)
    ensures 0 <= s.Index(x, y) < s.Size()
  {
    assert y * s.width <= (s.height - 1) * s.width by {
      MulLe(y, s.height - 1, s.width);
    }
  }

  lemma MulLe(a: int, b: int, c: nat)
    requires a <= b
    ensures a * c <= b * c
  {
  }

  /** Pixels of one row occupy consecutive slots. */
  lemma IndexInjective(s: Screen, x: int, y: int, x': int, y': int)
    requires s.OnScreen(x, y) && s.OnScreen(x', y')
    ensures s.Index(x, y) == s.Index(x', y') <==> x == x' && y == y'
  {
    if y < y' {
      MulLe(y + 1, y', s.width);
    } else if y' < y {
      MulLe(y' + 1, y, s.width);
    }
  }
}
