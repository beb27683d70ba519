/** The scan conversion of SoftwareRenderer as functions on the depth buffer's
    contents: span clipping, keep-max span writes, read-only span tests, the
    per-edge scanline setup and the row loops over it, and the triangle-level
    composition of these for occluders and occludees. The renderer class
    proves its in-place methods equal to these functions. */
module Raster {
  import opened Geometry

  function Min(a: int, b: int): int { if a <= b then a else b }
  function Max(a: int, b: int): int { if a >= b then a else b }
  function MaxReal(a: real, b: real): real { if a >= b then a else b }

  // ---------------------------------------------------------------------
  // Spans.
  // ---------------------------------------------------------------------

  /** A run of pixels [left, right] of one row, with the depths at its ends. */
  datatype Span = Span(left: int, right: int, leftZ: real, rightZ: real)

  /** The start of _fillPixels and _isScanlineOccluded: the ends are swapped
      when leftX > rightX, a span wholly left of column 0 or right of clipX is
      dropped, and an end beyond the screen is moved to its border with its
      depth interpolated along the span. */
  function ClipSpan(l: int, r: int, lz: real, rz: real, clipX: int): (sp: Option<Span>)
    requires clipX >= 0
    ensures sp.None? <==> Max(l, r) < 0 || Min(l, r) > clipX
    ensures sp.Some? ==> sp.value.left == Max(Min(l, r), 0) && sp.value.right == Min(Max(l, r), clipX)
    ensures sp.Some? ==> 0 <= sp.value.left <= sp.value.right <= clipX
    ensures sp.Some? && 0 <= Min(l, r) ==> sp.value.leftZ == (if l > r then rz else lz)
    ensures sp.Some? && Max(l, r) <= clipX ==> sp.value.rightZ == (if l > r then lz else rz)
  {
    var a, az, b, bz := if l > r then r else l, if l > r then rz else lz, if l > r then l else r, if l > r then lz else rz;
    if b < 0 || a > clipX then None
    else
      var a', az' := if a < 0 then 0 else a, if a < 0 then ClipLeftZ(a, az, b, bz) else az;
      var b', bz' := if b > clipX then clipX else b, if b > clipX then ClipRightZ(a', az', b, bz, clipX) else bz;
      Some(Span(a', b', az', bz'))
  }

  /** leftZ after the left clip: t = -leftX / (rightX - leftX). */
  function ClipLeftZ(a: int, az: real, b: int, bz: real): real
    requires a < 0 <= b
  {
    var t := (-a) as real / (b - a) as real;
    (1.0 - t) * az + t * bz
  }

  /** rightZ after the right clip: t = (rightX - clipX) / (rightX - leftX). */
  function ClipRightZ(a: int, az: real, b: int, bz: real, clipX: int): real
    requires a <= clipX < b
  {
    var t := (b - clipX) as real / (b - a) as real;
    (1.0 - t) * bz + t * az
  }

  /** z lies on the segment from (a, az) to (b, bz) at column x. */
  predicate OnSegment(a: int, az: real, b: int, bz: real, x: int, z: real) {
    z * (b - a) as real == az * (b - x) as real + bz * (x - a) as real
  }

  lemma ClipLeftOnSegment(a: int, az: real, b: int, bz: real)
    requires a < 0 <= b
    ensures OnSegment(a, az, b, bz, 0, ClipLeftZ(a, az, b, bz))
  {
    var d := (b - a) as real;
    var t := (-a) as real / d;
    assert t * d == (-a) as real;
    assert (1.0 - t) * d == b as real;
    calc {
      ClipLeftZ(a, az, b, bz) * d;
      ((1.0 - t) * az + t * bz) * d;
      ((1.0 - t) * d) * az + (t * d) * bz;
    }
  }

  lemma ClipRightOnSegment(a: int, az: real, a': int, az': real, b: int, bz: real, clipX: int)
    requires a <= a' <= clipX < b && OnSegment(a, az, b, bz, a', az')
    ensures OnSegment(a, az, b, bz, clipX, ClipRightZ(a', az', b, bz, clipX))
  {
    var d := (b - a') as real;
    var t := (b - clipX) as real / d;
    assert t * d == (b - clipX) as real;
    assert (1.0 - t) * d == (clipX - a') as real;
    var z := ClipRightZ(a', az', b, bz, clipX);
    assert z * d == (clipX - a') as real * bz + (b - clipX) as real * az' by {
      calc {
        z * d;
        ((1.0 - t) * bz + t * az') * d;
        ((1.0 - t) * d) * bz + (t * d) * az';
      }
    }
    ScaleSegment(a, az, b, bz, a', az', clipX, z);
  }

  /** The point at column x on the line through (a', az') and (b, bz) lies on
      the segment (a, az)-(b, bz) when (a', az') does. */
  lemma ScaleSegment(a: int, az: real, b: int, bz: real, a': int, az': real, x: int, z: real)
    requires a <= a' < b && OnSegment(a, az, b, bz, a', az')
    requires z * (b - a') as real == (x - a') as real * bz + (b - x) as real * az'
    ensures OnSegment(a, az, b, bz, x, z)
  {
    var D, d := (b - a) as real, (b - a') as real;
    var p, q := (b - x) as real, (x - a') as real;
    assert az' * D == az * d + bz * (a' - a) as real;
    calc {
      (z * D) * d;
      (z * d) * D;
      (q * bz + p * az') * D;
      q * bz * D + p * (az' * D);
      q * bz * D + p * (az * d + bz * (a' - a) as real);
      (az * p + bz * (x - a) as real) * d;
    }
    CancelPositive(z * D, az * p + bz * (x - a) as real, d);
  }

  lemma CancelPositive(u: real, v: real, d: real)
    requires d > 0.0 && u * d == v * d
    ensures u == v
  {
  }

  /** The depths at both ends of a clipped span lie on the segment between
      the original (swapped) ends: clipping moves the ends along the span
      without changing its depth profile. */
  lemma ClipSpanOnSegment(l: int, r: int, lz: real, rz: real, clipX: int)
    requires clipX >= 0 && l != r && ClipSpan(l, r, lz, rz, clipX).Some?
    ensures var sp := ClipSpan(l, r, lz, rz, clipX).value;
      var a, az, b, bz := Min(l, r), if l > r then rz else lz, Max(l, r), if l > r then lz else rz;
      OnSegment(a, az, b, bz, sp.left, sp.leftZ) && OnSegment(a, az, b, bz, sp.right, sp.rightZ)
  {
    var a, az, b, bz := Min(l, r), if l > r then rz else lz, Max(l, r), if l > r then lz else rz;
    var a', az' := if a < 0 then 0 else a, if a < 0 then ClipLeftZ(a, az, b, bz) else az;
    if a < 0 {
      ClipLeftOnSegment(a, az, b, bz);
    }
    assert OnSegment(a, az, b, bz, a', az');
    if b > clipX {
      ClipRightOnSegment(a, az, a', az', b, bz, clipX);
    }
  }

  /** The depth increment per pixel: (rightZ - leftZ) / (rightX - leftX); a
      one-pixel span takes no step, so its increment is never used. */
  function SpanInc(sp: Span): real {
    if sp.right == sp.left then 0.0 else (sp.rightZ - sp.leftZ) / (sp.right - sp.left) as real
  }

  /** The depth the span loop holds at column x. */
  function SpanDepth(sp: Span, x: int): real {
    sp.leftZ + (x - sp.left) as real * SpanInc(sp)
  }

  /** The span loop interpolates linearly from leftZ to rightZ. */
  lemma SpanDepthEnds(sp: Span)
    requires sp.left < sp.right
    ensures SpanDepth(sp, sp.left) == sp.leftZ && SpanDepth(sp, sp.right) == sp.rightZ
  {
    var d := (sp.right - sp.left) as real;
    assert (sp.rightZ - sp.leftZ) / d * d == sp.rightZ - sp.leftZ;
  }

  /** Slot k of the buffer is in the span sp of row y. */
  predicate InSpan(s: Screen, y: int, sp: Span, k: int) {
    y * s.width + sp.left <= k <= y * s.width + sp.right
  }

  /** The keep-max write of a span: each of its pixels takes the larger of its
      stored depth and the span's depth there; every other slot is kept. A
      slot outside the buffer is not written, as a typed array ignores it. */
  function FillSpan(depth: seq<real>, s: Screen, y: int, sp: Span): (r: seq<real>)
    ensures |r| == |depth|
  {
    seq(|depth|, k requires 0 <= k < |depth| =>
      if InSpan(s, y, sp, k) then MaxReal(depth[k], SpanDepth(sp, k - y * s.width)) else depth[k])
  }

  /** What _fillPixels(leftX, rightX, y, leftZ, rightZ) leaves in the buffer. */
  function FillPixelsResult(depth: seq<real>, s: Screen, l: int, r: int, y: int, lz: real, rz: real): (result: seq<real>)
    requires s.Valid()
    ensures |result| == |depth|
  {
    match ClipSpan(l, r, lz, rz, s.ClipX())
    case None => depth
    case Some(sp) => FillSpan(depth, s, y, sp)
  }

  /** A candidate depth z is visible at slot k when it is greater (nearer, as
      the buffer holds 1/w) than the stored depth; reading past the buffer
      gives undefined in JavaScript, and no comparison with it holds. */
  predicate Visible(depth: seq<real>, k: int, z: real) {
    0 <= k < |depth| && z > depth[k]
  }

  /** _isScanlineOccluded: a span off the screen is occluded; otherwise the
      span is occluded exactly when none of its pixels is visible. */
  predicate ScanlineOccluded(depth: seq<real>, s: Screen, l: int, r: int, y: int, lz: real, rz: real)
    requires s.Valid()
  {
    match ClipSpan(l, r, lz, rz, s.ClipX())
    case None => true
    case Some(sp) => forall x :: sp.left <= x <= sp.right ==> !Visible(depth, y * s.width + x, SpanDepth(sp, x))
  }

  /** One buffer is pointwise at or below another. */
  predicate Below(a: seq<real>, b: seq<real>) {
    |a| == |b| && forall k :: 0 <= k < |a| ==> a[k] <= b[k]
  }

  lemma BelowRefl(a: seq<real>)
    ensures Below(a, a)
  {
  }

  lemma BelowTrans(a: seq<real>, b: seq<real>, c: seq<real>)
    requires Below(a, b) && Below(b, c)
    ensures Below(a, c)
  {
  }

  /** _fillPixels only ever raises stored depths, changes nothing outside the
      clipped span of row y, and leaves each pixel of the span at least as near
      as the span's own depth there. */
  lemma FillPixelsKeepsMax(depth: seq<real>, s: Screen, l: int, r: int, y: int, lz: real, rz: real)
    requires s.Valid()
    ensures var result := FillPixelsResult(depth, s, l, r, y, lz, rz);
      Below(depth, result) &&
      match ClipSpan(l, r, lz, rz, s.ClipX())
      case None => result == depth
      case Some(sp) => forall k :: 0 <= k < |depth| ==>
        (if InSpan(s, y, sp, k) then result[k] >= SpanDepth(sp, k - y * s.width) &&
           (result[k] == depth[k] || result[k] == SpanDepth(sp, k - y * s.width))
         else result[k] == depth[k])
  {
  }

  /** A span just written by _fillPixels is reported occluded by
      _isScanlineOccluded with the same arguments. */
  lemma FillThenOccluded(depth: seq<real>, s: Screen, l: int, r: int, y: int, lz: real, rz: real)
    requires s.Valid()
    ensures ScanlineOccluded(FillPixelsResult(depth, s, l, r, y, lz, rz), s, l, r, y, lz, rz)
  {
    match ClipSpan(l, r, lz, rz, s.ClipX())
    case None =>
    case Some(sp) =>
      var result := FillSpan(depth, s, y, sp);
      forall x | sp.left <= x <= sp.right
        ensures !Visible(result, y * s.width + x, SpanDepth(sp, x))
      {
        var k := y * s.width + x;
        if 0 <= k < |result| {
          assert InSpan(s, y, sp, k) && k - y * s.width == x;
        }
      }
  }

  /** Raising the buffer never turns an occluded span visible. */
  lemma ScanlineOccludedMonotone(a: seq<real>, b: seq<real>, s: Screen, l: int, r: int, y: int, lz: real, rz: real)
    requires s.Valid() && Below(a, b) && ScanlineOccluded(a, s, l, r, y, lz, rz)
    ensures ScanlineOccluded(b, s, l, r, y, lz, rz)
  {
    match ClipSpan(l, r, lz, rz, s.ClipX())
    case None =>
    case Some(sp) =>
      forall x | sp.left <= x <= sp.right
        ensures !Visible(b, y * s.width + x, SpanDepth(sp, x))
      {
        assert !Visible(a, y * s.width + x, SpanDepth(sp, x));
      }
  }

  // ---------------------------------------------------------------------
  // The scanlines between a long and a short edge.
  // ---------------------------------------------------------------------

  /** The array _edgePreRenderProcess returns: the first and last scanline,
      the long and short edges' x and depth on the first scanline, and their
      increments per scanline. */
  datatype EdgeData = EdgeData(start: int, stop: int, longX: real, shortX: real, longZ: real, shortZ: real,
                               longXInc: real, shortXInc: real, longZInc: real, shortZInc: real)

  /** The long edge covers every scanline of the short edge, as the edge of
      greatest height of a triangle does. */
  predicate Spans(long: PixelEdge, short: PixelEdge) {
    long.y0 <= short.y0 && short.y1 <= long.y1
  }

  /** _edgePreRenderProcess: nothing when the short edge has no height;
      otherwise the scanline range of the short edge, clamped to the rows of
      the screen, with both edges' x and depth advanced to its first row. */
  function EdgePreRenderProcess(long: PixelEdge, short: PixelEdge, clipY: int): (d: Option<EdgeData>)
    requires Spans(long, short)
    ensures d.None? <==> short.y1 - short.y0 <= 0
    ensures d.Some? ==> d.value.start == Max(short.y0, 0) && d.value.stop == Min(short.y1, clipY)
  {
    var shortDY := short.y1 - short.y0;
    if shortDY <= 0 then None
    else
      var longDY := (long.y1 - long.y0) as real;
      var longDX, shortDX := (long.x1 - long.x0) as real, (short.x1 - short.x0) as real;
      var longDZ, shortDZ := long.z1 - long.z0, short.z1 - short.z0;
      var coeff := (short.y0 - long.y0) as real / longDY;
      var longX, longZ := long.x0 as real + longDX * coeff, long.z0 + longDZ * coeff;
      var longXInc, longZInc := longDX / longDY, longDZ / longDY;
      var shortXInc, shortZInc := shortDX / shortDY as real, shortDZ / shortDY as real;
      var stop := if short.y1 > clipY then clipY else short.y1;
      if short.y0 < 0 then
        var m := (-short.y0) as real;
        Some(EdgeData(0, stop, longX + m * longXInc, short.x0 as real + m * shortXInc, longZ + m * longZInc,
                      short.z0 + m * shortZInc, longXInc, shortXInc, longZInc, shortZInc))
      else
        Some(EdgeData(short.y0, stop, longX, short.x0 as real, longZ, short.z0, longXInc, shortXInc, longZInc, shortZInc))
  }

  /** The x and the depth of edge e on scanline y, by interpolation between
      its endpoints. */
  function EdgeXAt(e: PixelEdge, y: int): real
    requires e.y0 < e.y1
  {
    e.x0 as real + (y - e.y0) as real * ((e.x1 - e.x0) as real / (e.y1 - e.y0) as real)
  }

  function EdgeZAt(e: PixelEdge, y: int): real
    requires e.y0 < e.y1
  {
    e.z0 + (y - e.y0) as real * ((e.z1 - e.z0) / (e.y1 - e.y0) as real)
  }

  /** The values edgeData holds after k steps of the scanline loop. */
  function RowLongX(d: EdgeData, k: nat): real { d.longX + k as real * d.longXInc }
  function RowShortX(d: EdgeData, k: nat): real { d.shortX + k as real * d.shortXInc }
  function RowLongZ(d: EdgeData, k: nat): real { d.longZ + k as real * d.longZInc }
  function RowShortZ(d: EdgeData, k: nat): real { d.shortZ + k as real * d.shortZInc }

  /** The number of scanlines the loop visits, start to stop inclusive. */
  function RowCount(d: EdgeData): nat {
    if d.stop >= d.start then d.stop - d.start + 1 else 0
  }

  /** x0 + delta * (c / dy), advanced m steps of delta / dy, is the point t
      = c + m steps of delta / dy from x0. */
  lemma StartOnLine(x0: real, delta: real, dy: real, c: real, m: real, t: real)
    requires dy != 0.0 && c + m == t
    ensures x0 + delta * (c / dy) + m * (delta / dy) == x0 + t * (delta / dy)
  {
    assert delta * (c / dy) == c * (delta / dy);
    assert c * (delta / dy) + m * (delta / dy) == (c + m) * (delta / dy);
  }

  /** k further steps of q from the point t steps from x0. */
  lemma StepOnLine(x0: real, q: real, t: real, k: real)
    ensures x0 + t * q + k * q == x0 + (t + k) * q
  {
  }

  /** The fields _edgePreRenderProcess computes, each in terms of the two
      edges, with m the number of rows the vertical clip skips. */
  lemma PreRenderFields(long: PixelEdge, short: PixelEdge, clipY: int)
    requires Spans(long, short) && EdgePreRenderProcess(long, short, clipY).Some?
    ensures var d := EdgePreRenderProcess(long, short, clipY).value;
      var longDY, shortDY := (long.y1 - long.y0) as real, (short.y1 - short.y0) as real;
      var c := (short.y0 - long.y0) as real;
      var m := if short.y0 < 0 then (-short.y0) as real else 0.0;
      var ldx, ldz := (long.x1 - long.x0) as real, long.z1 - long.z0;
      var sdx, sdz := (short.x1 - short.x0) as real, short.z1 - short.z0;
      long.y0 < long.y1 && short.y0 < short.y1 &&
      d.longXInc == ldx / longDY && d.longZInc == ldz / longDY &&
      d.shortXInc == sdx / shortDY && d.shortZInc == sdz / shortDY &&
      d.longX == long.x0 as real + ldx * (c / longDY) + m * (ldx / longDY) &&
      d.longZ == long.z0 + ldz * (c / longDY) + m * (ldz / longDY) &&
      d.shortX == short.x0 as real + m * (sdx / shortDY) &&
      d.shortZ == short.z0 + m * (sdz / shortDY)
  {
  }

  /** The x and depth that _edgePreRenderProcess returns for the first
      scanline are each edge's own interpolated values there, and the
      increments are the edges' slopes. */
  lemma PreRenderStartLong(long: PixelEdge, short: PixelEdge, clipY: int)
    requires Spans(long, short) && EdgePreRenderProcess(long, short, clipY).Some?
    ensures var d := EdgePreRenderProcess(long, short, clipY).value;
      long.y0 < long.y1 &&
      d.longXInc == (long.x1 - long.x0) as real / (long.y1 - long.y0) as real &&
      d.longZInc == (long.z1 - long.z0) / (long.y1 - long.y0) as real &&
      d.longX == EdgeXAt(long, d.start) && d.longZ == EdgeZAt(long, d.start)
  {
    var d := EdgePreRenderProcess(long, short, clipY).value;
    PreRenderFields(long, short, clipY);
    var longDY := (long.y1 - long.y0) as real;
    var c := (short.y0 - long.y0) as real;
    var m := if short.y0 < 0 then (-short.y0) as real else 0.0;
    StartOnLine(long.x0 as real, (long.x1 - long.x0) as real, longDY, c, m, (d.start - long.y0) as real);
    StartOnLine(long.z0, long.z1 - long.z0, longDY, c, m, (d.start - long.y0) as real);
  }

  lemma PreRenderStartShort(long: PixelEdge, short: PixelEdge, clipY: int)
    requires Spans(long, short) && EdgePreRenderProcess(long, short, clipY).Some?
    ensures var d := EdgePreRenderProcess(long, short, clipY).value;
      short.y0 < short.y1 &&
      d.shortXInc == (short.x1 - short.x0) as real / (short.y1 - short.y0) as real &&
      d.shortZInc == (short.z1 - short.z0) / (short.y1 - short.y0) as real &&
      d.shortX == EdgeXAt(short, d.start) && d.shortZ == EdgeZAt(short, d.start)
  {
    var d := EdgePreRenderProcess(long, short, clipY).value;
    PreRenderFields(long, short, clipY);
    var shortDY := (short.y1 - short.y0) as real;
    var m := if short.y0 < 0 then (-short.y0) as real else 0.0;
    StartOnLine(short.x0 as real, (short.x1 - short.x0) as real, shortDY, 0.0, m, (d.start - short.y0) as real);
    StartOnLine(short.z0, short.z1 - short.z0, shortDY, 0.0, m, (d.start - short.y0) as real);
  }

  /** Vertical coherence: on every scanline the loop reaches, the x and the
      depth it holds for each edge are that edge's own interpolated x and
      depth on the scanline, also after the vertical clip has advanced them. */
  lemma PreRenderFollowsEdges(long: PixelEdge, short: PixelEdge, clipY: int, k: nat)
    requires Spans(long, short) && EdgePreRenderProcess(long, short, clipY).Some?
    ensures var d := EdgePreRenderProcess(long, short, clipY).value;
      long.y0 < long.y1 && short.y0 < short.y1 &&
      RowLongX(d, k) == EdgeXAt(long, d.start + k) && RowShortX(d, k) == EdgeXAt(short, d.start + k) &&
      RowLongZ(d, k) == EdgeZAt(long, d.start + k) && RowShortZ(d, k) == EdgeZAt(short, d.start + k)
  {
    var d := EdgePreRenderProcess(long, short, clipY).value;
    PreRenderStartLong(long, short, clipY);
    PreRenderStartShort(long, short, clipY);
    StepOnLine(long.x0 as real, d.longXInc, (d.start - long.y0) as real, k as real);
    StepOnLine(long.z0, d.longZInc, (d.start - long.y0) as real, k as real);
    StepOnLine(short.x0 as real, d.shortXInc, (d.start - short.y0) as real, k as real);
    StepOnLine(short.z0, d.shortZInc, (d.start - short.y0) as real, k as real);
  }

  /** What _drawEdges leaves after its first n scanlines: each row's span,
      from the long edge's rounded x to the short edge's, written with
      _fillPixels in turn. */
  function DrawRows(depth: seq<real>, s: Screen, d: EdgeData, n: nat): (r: seq<real>)
    requires s.Valid()
    ensures |r| == |depth|
  {
    if n == 0 then depth
    else
      var k := n - 1;
      FillPixelsResult(DrawRows(depth, s, d, k), s, JsRound(RowLongX(d, k)), JsRound(RowShortX(d, k)), d.start + k,
                       RowLongZ(d, k), RowShortZ(d, k))
  }

  /** The span test of _isEdgeOccluded on step k: the long edge's x rounded
      down, the short edge's x rounded up. */
  predicate RowOccluded(depth: seq<real>, s: Screen, d: EdgeData, k: nat)
    requires s.Valid()
  {
    ScanlineOccluded(depth, s, Floor(RowLongX(d, k)), Ceil(RowShortX(d, k)), d.start + k, RowLongZ(d, k), RowShortZ(d, k))
  }

  /** _isEdgeOccluded: every scanline of the first n is occluded. */
  predicate RowsOccluded(depth: seq<real>, s: Screen, d: EdgeData, n: nat)
    requires s.Valid()
  {
    forall k :: 0 <= k < n ==> RowOccluded(depth, s, d, k)
  }

  /** _drawEdges only ever raises stored depths. */
  lemma {:induction false} DrawRowsRaises(depth: seq<real>, s: Screen, d: EdgeData, n: nat)
    requires s.Valid()
    ensures Below(depth, DrawRows(depth, s, d, n))
  {
    if n > 0 {
      var k := n - 1;
      var prev := DrawRows(depth, s, d, k);
      DrawRowsRaises(depth, s, d, k);
      FillPixelsKeepsMax(prev, s, JsRound(RowLongX(d, k)), JsRound(RowShortX(d, k)), d.start + k, RowLongZ(d, k), RowShortZ(d, k));
      BelowTrans(depth, prev, DrawRows(depth, s, d, n));
    }
  }

  /** Raising the buffer never turns occluded scanlines visible. */
  lemma RowsOccludedMonotone(a: seq<real>, b: seq<real>, s: Screen, d: EdgeData, n: nat)
    requires s.Valid() && Below(a, b) && RowsOccluded(a, s, d, n)
    ensures RowsOccluded(b, s, d, n)
  {
    forall k | 0 <= k < n
      ensures RowOccluded(b, s, d, k)
    {
      assert RowOccluded(a, s, d, k);
      ScanlineOccludedMonotone(a, b, s, Floor(RowLongX(d, k)), Ceil(RowShortX(d, k)), d.start + k, RowLongZ(d, k), RowShortZ(d, k));
    }
  }

  // ---------------------------------------------------------------------
  // Triangles.
  // ---------------------------------------------------------------------

  /** The three edges _createEdgesForTriangle builds: (v1, v2), (v2, v3), (v3, v1). */
  function TriangleEdges(t: Triangle): (es: seq<Edge>)
    ensures |es| == 3 && forall i :: 0 <= i < 3 ==> es[i].y0 <= es[i].y1
  {
    [MakeEdge(t.v1, t.v2), MakeEdge(t.v2, t.v3), MakeEdge(t.v3, t.v1)]
  }

  function Height(e: Edge): real { e.y1 - e.y0 }

  /** The long edge: the first edge of greatest height (the edge 0 when no
      edge has any height). */
  function LongEdgeIndex(es: seq<Edge>): (l: nat)
    requires |es| == 3
    ensures l < 3
    ensures forall i :: 0 <= i < 3 ==> Height(es[i]) <= Height(es[l])
    ensures forall i :: 0 <= i < l ==> Height(es[i]) < Height(es[l])
  {
    if Height(es[0]) >= Height(es[1]) && Height(es[0]) >= Height(es[2]) then 0
    else if Height(es[1]) >= Height(es[2]) then 1
    else 2
  }

  /** The indices [longEdge, shortEdge1, shortEdge2, isLongEdgeRightSide]
      that _createEdgesForTriangle returns. */
  datatype EdgeSelection = EdgeSelection(long: nat, short1: nat, short2: nat, longOnRight: bool)

  /** The long edge lies below row 0 or past row height (the source compares
      with the height, not with clipY). */
  predicate VerticallyCulled(e: Edge, s: Screen) {
    e.y1 < 0.0 || e.y0 > s.height as real
  }

  /** The long edge lies wholly left of column 0 when it is on the right side,
      wholly right of clipX otherwise. */
  predicate HorizontallyCulled(e: Edge, onRight: bool, s: Screen) {
    if onRight then e.x1 < 0.0 && e.x0 < 0.0 else e.x1 > s.ClipX() as real && e.x0 > s.ClipX() as real
  }

  /** The long edge is on the right side when its lower end lies right of
      the lower end of one of the short edges. */
  predicate LongOnRight(es: seq<Edge>, l: nat)
    requires |es| == 3 && l < 3
  {
    es[l].x1 > es[(l + 1) % 3].x1 || es[l].x1 > es[(l + 2) % 3].x1
  }

  /** _createEdgesForTriangle on the edges es: false for a culled triangle,
      the edge selection otherwise. */
  function SelectEdges(es: seq<Edge>, s: Screen): (sel: Option<EdgeSelection>)
    requires |es| == 3
    ensures sel.Some? ==> sel.value.long < 3 && sel.value.short1 < 3 && sel.value.short2 < 3
  {
    var l := LongEdgeIndex(es);
    if VerticallyCulled(es[l], s) then None
    else
      var onRight := LongOnRight(es, l);
      if HorizontallyCulled(es[l], onRight, s) then None
      else Some(EdgeSelection(l, (l + 1) % 3, (l + 2) % 3, onRight))
  }

  function MinY(t: Triangle): real {
    if t.v1.y <= t.v2.y && t.v1.y <= t.v3.y then t.v1.y else if t.v2.y <= t.v3.y then t.v2.y else t.v3.y
  }

  function MaxY(t: Triangle): real {
    if t.v1.y >= t.v2.y && t.v1.y >= t.v3.y then t.v1.y else if t.v2.y >= t.v3.y then t.v2.y else t.v3.y
  }

  /** Every edge lies within the triangle's vertical range, and one of them
      spans all of it. */
  lemma EdgesWithinTriangle(t: Triangle)
    ensures var es := TriangleEdges(t);
      (forall i :: 0 <= i < 3 ==> MinY(t) <= es[i].y0 && es[i].y1 <= MaxY(t)) &&
      exists i :: 0 <= i < 3 && Height(es[i]) == MaxY(t) - MinY(t)
  {
    var es := TriangleEdges(t);
    if MinY(t) == t.v1.y {
      if MaxY(t) == t.v2.y { assert Height(es[0]) == MaxY(t) - MinY(t); }
      else { assert Height(es[2]) == MaxY(t) - MinY(t); }
    } else if MinY(t) == t.v2.y {
      if MaxY(t) == t.v3.y { assert Height(es[1]) == MaxY(t) - MinY(t); }
      else { assert Height(es[0]) == MaxY(t) - MinY(t); }
    } else {
      if MaxY(t) == t.v1.y { assert Height(es[2]) == MaxY(t) - MinY(t); }
      else { assert Height(es[1]) == MaxY(t) - MinY(t); }
    }
  }

  /** The long edge runs from the triangle's topmost to its bottommost
      vertex, so it covers the vertical range of each of the other edges. */
  lemma LongEdgeSpansTriangle(t: Triangle)
    ensures var es := TriangleEdges(t); var l := LongEdgeIndex(es);
      es[l].y0 == MinY(t) && es[l].y1 == MaxY(t) &&
      forall i :: 0 <= i < 3 ==> es[l].y0 <= es[i].y0 && es[i].y1 <= es[l].y1
  {
    EdgesWithinTriangle(t);
  }

  /** Vertical culling only drops triangles that lie wholly above row 0 or
      wholly below row height. */
  lemma VerticalCullSound(t: Triangle, s: Screen)
    requires var es := TriangleEdges(t); VerticallyCulled(es[LongEdgeIndex(es)], s)
    ensures (t.v1.y < 0.0 && t.v2.y < 0.0 && t.v3.y < 0.0) ||
            (t.v1.y > s.height as real && t.v2.y > s.height as real && t.v3.y > s.height as real)
  {
    LongEdgeSpansTriangle(t);
  }

  /** The triangle lies wholly above row 0, below row height, left of column
      0 or right of column clipX. */
  predicate OffScreen(t: Triangle, s: Screen) {
    (t.v1.y < 0.0 && t.v2.y < 0.0 && t.v3.y < 0.0) ||
    (t.v1.y > s.height as real && t.v2.y > s.height as real && t.v3.y > s.height as real) ||
    (t.v1.x < 0.0 && t.v2.x < 0.0 && t.v3.x < 0.0) ||
    (t.v1.x > s.ClipX() as real && t.v2.x > s.ClipX() as real && t.v3.x > s.ClipX() as real)
  }

  /** One vertex lies strictly above the other two. */
  predicate UniqueTop(t: Triangle) {
    (t.v1.y < t.v2.y && t.v1.y < t.v3.y) || (t.v2.y < t.v1.y && t.v2.y < t.v3.y) ||
    (t.v3.y < t.v1.y && t.v3.y < t.v2.y)
  }

  /** The vertex of t that is not an endpoint of edge l of TriangleEdges(t):
      the vertex the two other edges share. */
  function Apex(t: Triangle, l: nat): Vec4
    requires l < 3
  {
    if l == 0 then t.v3 else if l == 1 then t.v1 else t.v2
  }

  /** The side test as intended: the long edge is on the right when its lower
      end lies right of the vertex the short edges share. */
  predicate LongOnRightIntended(t: Triangle, l: nat)
    requires l < 3
  {
    TriangleEdges(t)[l].x1 > Apex(t, l).x
  }

  /** The edge selection with the intended side test. */
  function SelectEdgesIntended(t: Triangle, s: Screen): (sel: Option<EdgeSelection>)
    ensures sel.Some? ==> sel.value.long < 3 && sel.value.short1 < 3 && sel.value.short2 < 3
  {
    var es := TriangleEdges(t);
    var l := LongEdgeIndex(es);
    if VerticallyCulled(es[l], s) then None
    else
      var onRight := LongOnRightIntended(t, l);
      if HorizontallyCulled(es[l], onRight, s) then None
      else Some(EdgeSelection(l, (l + 1) % 3, (l + 2) % 3, onRight))
  }

  /** With the intended side test, a culled triangle lies wholly off the
      screen. */
  lemma HorizontalCullSoundIntended(t: Triangle, s: Screen)
    requires SelectEdgesIntended(t, s).None?
    ensures OffScreen(t, s)
  {
    var es := TriangleEdges(t);
    var l := LongEdgeIndex(es);
    if VerticallyCulled(es[l], s) {
      VerticalCullSound(t, s);
    } else if l == 0 {
      assert {es[l].x0, es[l].x1} == {t.v1.x, t.v2.x};
    } else if l == 1 {
      assert {es[l].x0, es[l].x1} == {t.v2.x, t.v3.x};
    } else {
      assert {es[l].x0, es[l].x1} == {t.v3.x, t.v1.x};
    }
  }

  /** When one vertex lies above the other two, the side test as written
      agrees with the intended one. */
  lemma SideTestAgrees(t: Triangle)
    requires UniqueTop(t)
    ensures var es := TriangleEdges(t); var l := LongEdgeIndex(es);
      LongOnRight(es, l) == LongOnRightIntended(t, l)
  {
    LongEdgeSpansTriangle(t);
  }

  /** When one vertex lies above the other two, horizontal culling as written
      only drops triangles that lie wholly off the screen. */
  lemma HorizontalCullSound(t: Triangle, s: Screen)
    requires UniqueTop(t) && SelectEdges(TriangleEdges(t), s).None?
    ensures OffScreen(t, s)
  {
    SideTestAgrees(t);
    assert SelectEdgesIntended(t, s) == SelectEdges(TriangleEdges(t), s);
    HorizontalCullSoundIntended(t, s);
  }

  /** A triangle whose top edge v3-v1 is horizontal, whose lowest vertex v2
      lies right of v1 but left of column 0, and whose vertex v3 lies on the
      screen: the side test as written puts the long edge v1-v2 on the
      right and culls the triangle, though it is partly visible; the
      intended side test keeps it. */
  lemma FlatTopMisjudged(t: Triangle, s: Screen)
    requires t.v1.y == t.v3.y < t.v2.y && 0.0 <= t.v1.y <= s.height as real
    requires t.v1.x < t.v2.x < 0.0 <= t.v3.x <= s.ClipX() as real
    ensures !OffScreen(t, s)
    ensures SelectEdges(TriangleEdges(t), s).None?
    ensures SelectEdgesIntended(t, s).Some?
  {
    var es := TriangleEdges(t);
    assert es[0] == Edge(t.v1.x, t.v1.y, t.v1.w, t.v2.x, t.v2.y, t.v2.w);
    assert es[1] == Edge(t.v3.x, t.v3.y, t.v3.w, t.v2.x, t.v2.y, t.v2.w);
    assert es[2] == Edge(t.v3.x, t.v3.y, t.v3.w, t.v1.x, t.v1.y, t.v1.w);
    assert LongEdgeIndex(es) == 0;
  }

  /** The occlusion test reports such a triangle as occluded whatever the
      depth buffer holds. */
  lemma FlatTopAlwaysOccluded(depth: seq<real>, t: Triangle, s: Screen)
    requires s.Valid() && |depth| == s.Size()
    requires t.v1.y == t.v3.y < t.v2.y && 0.0 <= t.v1.y <= s.height as real
    requires t.v1.x < t.v2.x < 0.0 <= t.v3.x <= s.ClipX() as real
    ensures TriangleOccluded(depth, s, t)
  {
    FlatTopMisjudged(t, s);
  }

  /** new Edge(a, b) under the opposite tie rule: on equal y the second
      vertex comes first. Edge.js is not part of this model, so which rule
      holds is an assumption; FlatTopMisjudgedOtherTie shows the misjudged
      side under this one. */
  function MakeEdgeOtherTie(a: Vec4, b: Vec4): (e: Edge)
    ensures e.y0 <= e.y1
  {
    if a.y < b.y then MakeEdge(a, b) else MakeEdge(b, a)
  }

  function TriangleEdgesOtherTie(t: Triangle): (es: seq<Edge>)
    ensures |es| == 3
  {
    [MakeEdgeOtherTie(t.v1, t.v2), MakeEdgeOtherTie(t.v2, t.v3), MakeEdgeOtherTie(t.v3, t.v1)]
  }

  /** Under the opposite tie rule, the triangle with its vertices relabelled
      (the lowest vertex first) is misjudged in the same way: its top edge
      v2-v3 is horizontal, v1 lies right of v2 but left of column 0, and v3
      lies on the screen, yet the side test culls it. */
  lemma FlatTopMisjudgedOtherTie(t: Triangle, s: Screen)
    requires t.v2.y == t.v3.y < t.v1.y && 0.0 <= t.v2.y <= s.height as real
    requires t.v2.x < t.v1.x < 0.0 <= t.v3.x <= s.ClipX() as real
    ensures !OffScreen(t, s)
    ensures SelectEdges(TriangleEdgesOtherTie(t), s).None?
    ensures SelectEdgesIntended(t, s).Some?
  {
    var es := TriangleEdgesOtherTie(t);
    assert es[0] == Edge(t.v2.x, t.v2.y, t.v2.w, t.v1.x, t.v1.y, t.v1.w);
    assert es[1] == Edge(t.v3.x, t.v3.y, t.v3.w, t.v2.x, t.v2.y, t.v2.w);
    assert es[2] == Edge(t.v3.x, t.v3.y, t.v3.w, t.v1.x, t.v1.y, t.v1.w);
    assert LongEdgeIndex(es) == 0;
  }

  /** The edges after rounding for drawing (occluders) or for testing (occludees). */
  function OccluderEdges(es: seq<Edge>): (pe: seq<PixelEdge>)
    requires |es| == 3 && forall i :: 0 <= i < 3 ==> es[i].y0 <= es[i].y1
    ensures |pe| == 3
  {
    seq(3, i requires 0 <= i < 3 => RoundOccluderEdge(es[i]))
  }

  function OccludeeEdges(es: seq<Edge>): (pe: seq<PixelEdge>)
    requires |es| == 3
    ensures |pe| == 3
  {
    seq(3, i requires 0 <= i < 3 => RoundOccludeeEdge(es[i]))
  }

  /** Rounding keeps the long edge covering the short edges' scanlines, which
      is what _edgePreRenderProcess needs of its arguments. */
  lemma RoundedEdgesSpan(t: Triangle, i: nat)
    requires i < 3
    ensures var es := TriangleEdges(t); var l := LongEdgeIndex(es);
      Spans(OccluderEdges(es)[l], OccluderEdges(es)[i]) && Spans(OccludeeEdges(es)[l], OccludeeEdges(es)[i])
  {
    var es := TriangleEdges(t);
    var l := LongEdgeIndex(es);
    LongEdgeSpansTriangle(t);
    RoundingMonotone(es[l].y0, es[i].y0);
    RoundingMonotone(es[i].y1, es[l].y1);
  }

  /** One short edge's pass of _renderTriangle: the rows between it and the
      long edge drawn by _drawEdges, when there are any. */
  function DrawPair(depth: seq<real>, s: Screen, long: PixelEdge, short: PixelEdge): (r: seq<real>)
    requires s.Valid() && Spans(long, short)
    ensures |r| == |depth|
  {
    match EdgePreRenderProcess(long, short, s.ClipY())
    case None => depth
    case Some(d) => DrawRows(depth, s, d, RowCount(d))
  }

  /** One short edge's pass of _isRenderedTriangleOccluded. */
  predicate PairOccluded(depth: seq<real>, s: Screen, long: PixelEdge, short: PixelEdge)
    requires s.Valid() && Spans(long, short)
  {
    match EdgePreRenderProcess(long, short, s.ClipY())
    case None => true
    case Some(d) => RowsOccluded(depth, s, d, RowCount(d))
  }

  /** What _renderTriangle leaves in the buffer. */
  function RenderTriangleResult(depth: seq<real>, s: Screen, t: Triangle): (r: seq<real>)
    requires s.Valid()
    ensures |r| == |depth|
  {
    var es := TriangleEdges(t);
    match SelectEdges(es, s)
    case None => depth
    case Some(sel) =>
      var pe := OccluderEdges(es);
      RoundedEdgesSpan(t, sel.short1);
      RoundedEdgesSpan(t, sel.short2);
      DrawPair(DrawPair(depth, s, pe[sel.long], pe[sel.short1]), s, pe[sel.long], pe[sel.short2])
  }

  /** _isRenderedTriangleOccluded: a culled triangle counts as occluded;
      otherwise both short edges' passes must find every span occluded. */
  predicate TriangleOccluded(depth: seq<real>, s: Screen, t: Triangle)
    requires s.Valid()
  {
    var es := TriangleEdges(t);
    match SelectEdges(es, s)
    case None => true
    case Some(sel) =>
      var pe := OccludeeEdges(es);
      RoundedEdgesSpan(t, sel.short1);
      RoundedEdgesSpan(t, sel.short2);
      PairOccluded(depth, s, pe[sel.long], pe[sel.short1]) && PairOccluded(depth, s, pe[sel.long], pe[sel.short2])
  }

  lemma DrawPairRaises(depth: seq<real>, s: Screen, long: PixelEdge, short: PixelEdge)
    requires s.Valid() && Spans(long, short)
    ensures Below(depth, DrawPair(depth, s, long, short))
  {
    match EdgePreRenderProcess(long, short, s.ClipY())
    case None =>
    case Some(d) => DrawRowsRaises(depth, s, d, RowCount(d));
  }

  /** _renderTriangle only ever raises stored depths. */
  lemma RenderTriangleRaises(depth: seq<real>, s: Screen, t: Triangle)
    requires s.Valid()
    ensures Below(depth, RenderTriangleResult(depth, s, t))
  {
    var es := TriangleEdges(t);
    match SelectEdges(es, s)
    case None =>
    case Some(sel) =>
      var pe := OccluderEdges(es);
      RoundedEdgesSpan(t, sel.short1);
      RoundedEdgesSpan(t, sel.short2);
      var d1 := DrawPair(depth, s, pe[sel.long], pe[sel.short1]);
      DrawPairRaises(depth, s, pe[sel.long], pe[sel.short1]);
      DrawPairRaises(d1, s, pe[sel.long], pe[sel.short2]);
      BelowTrans(depth, d1, DrawPair(d1, s, pe[sel.long], pe[sel.short2]));
  }

  /** Raising the buffer never turns an occluded triangle visible. */
  lemma TriangleOccludedMonotone(a: seq<real>, b: seq<real>, s: Screen, t: Triangle)
    requires s.Valid() && Below(a, b) && TriangleOccluded(a, s, t)
    ensures TriangleOccluded(b, s, t)
  {
    var es := TriangleEdges(t);
    match SelectEdges(es, s)
    case None =>
    case Some(sel) =>
      var pe := OccludeeEdges(es);
      RoundedEdgesSpan(t, sel.short1);
      RoundedEdgesSpan(t, sel.short2);
      PairOccludedMonotone(a, b, s, pe[sel.long], pe[sel.short1]);
      PairOccludedMonotone(a, b, s, pe[sel.long], pe[sel.short2]);
  }

  lemma PairOccludedMonotone(a: seq<real>, b: seq<real>, s: Screen, long: PixelEdge, short: PixelEdge)
    requires s.Valid() && Spans(long, short) && Below(a, b)
    ensures PairOccluded(a, s, long, short) ==> PairOccluded(b, s, long, short)
  {
    match EdgePreRenderProcess(long, short, s.ClipY())
    case None =>
    case Some(d) =>
      if RowsOccluded(a, s, d, RowCount(d)) {
        RowsOccludedMonotone(a, b, s, d, RowCount(d));
      }
  }

  // ---------------------------------------------------------------------
  // Rectangle and point tests of occludees.
  // ---------------------------------------------------------------------

  /** No pixel of the rectangle of columns minX..maxX and rows minY..maxY has
      a stored depth below z, the occludee's nearest depth. A slot is
      addressed as row * width + column, as the scan loops do. */
  predicate RectOccluded(depth: seq<real>, s: Screen, minX: int, maxX: int, minY: int, maxY: int, z: real) {
    forall y, x :: minY <= y <= maxY && minX <= x <= maxX ==> !Visible(depth, s.Index(x, y), z)
  }

  /** The rectangle _isSSAABBScanlineOccluded samples: the box's edges
      rounded outwards and then clamped to the screen. */
  datatype Rect = Rect(minX: int, maxX: int, minY: int, maxY: int)

  function SSAABBRect(leftX: real, rightX: real, topY: real, bottomY: real, s: Screen): (r: Rect)
    ensures r.minX >= 0 && r.maxX <= s.ClipX() && r.minY >= 0 && r.maxY <= s.ClipY()
  {
    Rect(Max(Floor(leftX), 0), Min(Ceil(rightX), s.ClipX()), Max(Floor(bottomY), 0), Min(Ceil(topY), s.ClipY()))
  }

  /** Clamping drops only pixels off the screen: the clamped rectangle is
      occluded exactly when no on-screen pixel of the rounded rectangle is
      visible. */
  lemma SSAABBRectOnScreen(depth: seq<real>, s: Screen, leftX: real, rightX: real, topY: real, bottomY: real, z: real)
    ensures var r := SSAABBRect(leftX, rightX, topY, bottomY, s);
      RectOccluded(depth, s, r.minX, r.maxX, r.minY, r.maxY, z) <==>
      forall y, x :: Floor(bottomY) <= y <= Ceil(topY) && Floor(leftX) <= x <= Ceil(rightX) && s.OnScreen(x, y) ==>
        !Visible(depth, s.Index(x, y), z)
  {
  }

  /** Raising the buffer never turns an occluded rectangle visible. */
  lemma RectOccludedMonotone(a: seq<real>, b: seq<real>, s: Screen, minX: int, maxX: int, minY: int, maxY: int, z: real)
    requires Below(a, b) && RectOccluded(a, s, minX, maxX, minY, maxY, z)
    ensures RectOccluded(b, s, minX, maxX, minY, maxY, z)
  {
    forall y, x | minY <= y <= maxY && minX <= x <= maxX
      ensures !Visible(b, s.Index(x, y), z)
    {
      assert !Visible(a, s.Index(x, y), z);
    }
  }

  /** _isOccluded: a pixel off the screen counts as occluded; on the screen
      the occludee is occluded when its nearest depth is below the stored one. */
  predicate PointOccluded(depth: seq<real>, s: Screen, x: int, y: int, nearestDepth: real)
    requires |depth| == s.Size()
  {
    if s.OnScreen(x, y) then
      IndexInRange(s, x, y);
      nearestDepth < depth[s.Index(x, y)]
    else true
  }

  lemma PointOccludedMonotone(a: seq<real>, b: seq<real>, s: Screen, x: int, y: int, nearestDepth: real)
    requires |a| == s.Size() && Below(a, b) && PointOccluded(a, s, x, y, nearestDepth)
    ensures PointOccluded(b, s, x, y, nearestDepth)
  {
    if s.OnScreen(x, y) {
      IndexInRange(s, x, y);
    }
  }
}
