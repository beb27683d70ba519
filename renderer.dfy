/** SoftwareRenderer: the depth buffer and the passes over it. Each method
    updates (or only reads) the buffer in place and is proved equal to the
    specification function of Raster for the same pass. */
module Renderer {
  import opened Geometry
  import opened Raster
  import BoxClip
  import NearClip

  /** The camera the renderer was created with. */
  datatype Camera = Camera(view: Matrix4x4, proj: Matrix4x4, near: real)

  class SoftwareRenderer {
    const screen: Screen
    const camera: Camera
    /** _depthData: one 1/w value per pixel, row by row. */
    const depthData: array<real>
    /** _depthClear: the buffer copied over _depthData to clear it. */
    const depthClear: array<real>

    ghost predicate Valid()
      reads this, depthClear
    {
      screen.Valid() && depthData.Length == screen.Size() && depthClear.Length == screen.Size() &&
      depthData != depthClear && forall k :: 0 <= k < depthClear.Length ==> depthClear[k] == 0.0
    }

    /** new SoftwareRenderer({width, height, camera}): a zero depth buffer and
        a zero clear buffer of width * height values. */
    constructor (width: nat, height: nat, camera: Camera)
      requires width > 0 && height > 0
      ensures Valid() && screen == Screen(width, height) && this.camera == camera
      ensures fresh(depthData) && fresh(depthClear)
      ensures forall k :: 0 <= k < depthData.Length ==> depthData[k] == 0.0
    {
      screen := Screen(width, height);
      this.camera := camera;
      var data := new real[width * height](_ => 0.0);
      var clear := new real[width * height];
      for i := 0 to width * height
        invariant forall k :: 0 <= k < i ==> clear[k] == 0.0
        invariant forall k :: 0 <= k < data.Length ==> data[k] == 0.0
      {
        clear[i] := 0.0;
      }
      depthData, depthClear := data, clear;
    }

    /** _clearDepthData: the clear buffer copied over the depth buffer. */
    method ClearDepthData()
      requires Valid()
      modifies depthData
      ensures Valid()
      ensures forall k :: 0 <= k < depthData.Length ==> depthData[k] == 0.0
    {
      for i := 0 to depthData.Length
        invariant forall k :: 0 <= k < i ==> depthData[k] == 0.0
      {
        depthData[i] := depthClear[i];
      }
    }

    /** _fillPixels: the keep-max write of one span of row y. */
    method FillPixels(l: int, r: int, y: int, lz: real, rz: real)
      requires Valid() && 0 <= y <= screen.ClipY()
      modifies depthData
      ensures Valid()
      ensures depthData[..] == FillPixelsResult(old(depthData[..]), screen, l, r, y, lz, rz)
    {
      var clipped := ClipSpan(l, r, lz, rz, screen.ClipX());
      if clipped.None? {
        return;
      }
      var sp := clipped.value;
      ghost var before := depthData[..];
      var base := y * screen.width;
      var index := base + sp.left;
      var depth := sp.leftZ;
      var depthIncrement := SpanInc(sp);
      var i := sp.left;
      while i <= sp.right
        invariant sp.left <= i <= sp.right + 1 && index == base + i
        invariant depth == SpanDepth(sp, i)
        invariant forall k :: 0 <= k < depthData.Length ==>
          depthData[k] == if base + sp.left <= k < base + i then MaxReal(before[k], SpanDepth(sp, k - base)) else before[k]
      {
        IndexInRange(screen, i, y);
        if depth > depthData[index] {
          depthData[index] := depth;
        }
        SpanStep(sp, i);
        index := index + 1;
        depth := depth + depthIncrement;
        i := i + 1;
      }
      assert forall k :: 0 <= k < depthData.Length ==> depthData[k] == FillSpan(before, screen, y, sp)[k];
    }

    /** _isScanlineOccluded: false at the first visible pixel of the span. */
    method IsScanlineOccluded(l: int, r: int, y: int, lz: real, rz: real) returns (occluded: bool)
      requires Valid() && 0 <= y <= screen.ClipY()
      ensures occluded == ScanlineOccluded(depthData[..], screen, l, r, y, lz, rz)
    {
      var clipped := ClipSpan(l, r, lz, rz, screen.ClipX());
      if clipped.None? {
        return true;
      }
      var sp := clipped.value;
      var base := y * screen.width;
      var index := base + sp.left;
      var depth := sp.leftZ;
      var depthIncrement := SpanInc(sp);
      var i := sp.left;
      while i <= sp.right
        invariant sp.left <= i <= sp.right + 1 && index == base + i
        invariant depth == SpanDepth(sp, i)
        invariant forall x :: sp.left <= x < i ==> !Visible(depthData[..], base + x, SpanDepth(sp, x))
      {
        IndexInRange(screen, i, y);
        if depth > depthData[index] {
          assert Visible(depthData[..], base + i, SpanDepth(sp, i));
          return false;
        }
        SpanStep(sp, i);
        index := index + 1;
        depth := depth + depthIncrement;
        i := i + 1;
      }
      return true;
    }

    /** _drawEdges: one span per scanline from start to stop, the edges' x
        and depth advanced by their increments after each. */
    method DrawEdges(d: EdgeData)
      requires Valid() && 0 <= d.start && d.stop <= screen.ClipY()
      modifies depthData
      ensures Valid()
      ensures depthData[..] == DrawRows(old(depthData[..]), screen, d, RowCount(d))
    {
      ghost var before := depthData[..];
      var longX, shortX, longZ, shortZ := d.longX, d.shortX, d.longZ, d.shortZ;
      var y := d.start;
      while y <= d.stop
        invariant d.start <= y && (y <= d.stop + 1 || y == d.start)
        invariant longX == RowLongX(d, y - d.start) && shortX == RowShortX(d, y - d.start)
        invariant longZ == RowLongZ(d, y - d.start) && shortZ == RowShortZ(d, y - d.start)
        invariant depthData[..] == DrawRows(before, screen, d, y - d.start)
      {
        FillPixels(JsRound(longX), JsRound(shortX), y, longZ, shortZ);
        RowStep(d, y - d.start);
        longX, shortX := longX + d.longXInc, shortX + d.shortXInc;
        longZ, shortZ := longZ + d.longZInc, shortZ + d.shortZInc;
        y := y + 1;
      }
    }

    /** _isEdgeOccluded: false at the first scanline that is not occluded. */
    method IsEdgeOccluded(d: EdgeData) returns (occluded: bool)
      requires Valid() && 0 <= d.start && d.stop <= screen.ClipY()
      ensures occluded == RowsOccluded(depthData[..], screen, d, RowCount(d))
    {
      var longX, shortX, longZ, shortZ := d.longX, d.shortX, d.longZ, d.shortZ;
      var y := d.start;
      while y <= d.stop
        invariant d.start <= y && (y <= d.stop + 1 || y == d.start)
        invariant longX == RowLongX(d, y - d.start) && shortX == RowShortX(d, y - d.start)
        invariant longZ == RowLongZ(d, y - d.start) && shortZ == RowShortZ(d, y - d.start)
        invariant RowsOccluded(depthData[..], screen, d, y - d.start)
      {
        var rowOccluded := IsScanlineOccluded(Floor(longX), Ceil(shortX), y, longZ, shortZ);
        if !rowOccluded {
          assert !RowOccluded(depthData[..], screen, d, y - d.start);
          return false;
        }
        RowStep(d, y - d.start);
        longX, shortX := longX + d.longXInc, shortX + d.shortXInc;
        longZ, shortZ := longZ + d.longZInc, shortZ + d.shortZInc;
        y := y + 1;
      }
      return true;
    }

    /** _createEdgesForTriangle: the three edges, the long edge found by a
        scan for the first edge of greatest height, and the culling tests. */
    method CreateEdgesForTriangle(t: Triangle) returns (edges: seq<Edge>, selection: Option<EdgeSelection>)
      ensures edges == TriangleEdges(t)
      ensures selection == SelectEdges(edges, screen)
      ensures selection.Some? ==> selection.value.long == LongEdgeIndex(edges)
    {
      edges := TriangleEdges(t);
      var longEdge := FindLongEdge(edges);
      selection := CullOrSelect(edges, longEdge, screen);
    }

    /** The culling tests of _createEdgesForTriangle, given the long edge. */
    static method CullOrSelect(edges: seq<Edge>, longEdge: nat, screen: Screen) returns (selection: Option<EdgeSelection>)
      requires |edges| == 3 && longEdge == LongEdgeIndex(edges)
      ensures selection == SelectEdges(edges, screen)
    {
      if edges[longEdge].y1 < 0.0 || edges[longEdge].y0 > screen.height as real {
        return None;
      }
      var shortEdge1, shortEdge2 := (longEdge + 1) % 3, (longEdge + 2) % 3;
      var isLongEdgeRightSide := edges[longEdge].x1 > edges[shortEdge1].x1 || edges[longEdge].x1 > edges[shortEdge2].x1;
      if isLongEdgeRightSide {
        if edges[longEdge].x1 < 0.0 && edges[longEdge].x0 < 0.0 {
          return None;
        }
      } else {
        if edges[longEdge].x1 > screen.ClipX() as real && edges[longEdge].x0 > screen.ClipX() as real {
          return None;
        }
      }
      selection := Some(EdgeSelection(longEdge, shortEdge1, shortEdge2, isLongEdgeRightSide));
    }

    /** The loop of _createEdgesForTriangle: the first edge whose height
        exceeds every earlier one, starting from height 0 at edge 0. */
    static method FindLongEdge(edges: seq<Edge>) returns (longEdge: nat)
      requires |edges| == 3 && forall i :: 0 <= i < 3 ==> edges[i].y0 <= edges[i].y1
      ensures longEdge == LongEdgeIndex(edges)
    {
      var maxHeight := 0.0;
      longEdge := 0;
      for i := 0 to 3
        invariant longEdge < 3 && (i == 0 ==> longEdge == 0 && maxHeight == 0.0)
        invariant i > 0 ==> longEdge < i && maxHeight == Height(edges[longEdge])
        invariant forall j :: 0 <= j < i ==> Height(edges[j]) <= maxHeight
        invariant forall j :: 0 <= j < longEdge ==> Height(edges[j]) < maxHeight
      {
        var height := edges[i].y1 - edges[i].y0;
        if height > maxHeight {
          maxHeight := height;
          longEdge := i;
        }
      }
    }

    /** _renderTriangle: the rows between the long edge and each short edge
        drawn, with the edges rounded to pixels and depths inverted. */
    method RenderTriangle(t: Triangle)
      requires Valid()
      modifies depthData
      ensures Valid()
      ensures depthData[..] == RenderTriangleResult(old(depthData[..]), screen, t)
    {
      var edges, selection := CreateEdgesForTriangle(t);
      if selection.None? {
        return;
      }
      var sel := selection.value;
      var rounded := OccluderEdges(edges);
      RoundedEdgesSpan(t, sel.short1);
      RoundedEdgesSpan(t, sel.short2);
      ghost var before := depthData[..];
      var edgeData := EdgePreRenderProcess(rounded[sel.long], rounded[sel.short1], screen.ClipY());
      if edgeData.Some? {
        DrawEdges(edgeData.value);
      }
      assert depthData[..] == DrawPair(before, screen, rounded[sel.long], rounded[sel.short1]);
      ghost var middle := depthData[..];
      edgeData := EdgePreRenderProcess(rounded[sel.long], rounded[sel.short2], screen.ClipY());
      if edgeData.Some? {
        DrawEdges(edgeData.value);
      }
      assert depthData[..] == DrawPair(middle, screen, rounded[sel.long], rounded[sel.short2]);
    }

    /** _isRenderedTriangleOccluded: true for a culled triangle; otherwise
        false as soon as one short edge's pass finds a visible span. */
    method IsRenderedTriangleOccluded(t: Triangle) returns (occluded: bool)
      requires Valid()
      ensures occluded == TriangleOccluded(depthData[..], screen, t)
    {
      var edges, selection := CreateEdgesForTriangle(t);
      if selection.None? {
        return true;
      }
      var sel := selection.value;
      var rounded := OccludeeEdges(edges);
      RoundedEdgesSpan(t, sel.short1);
      RoundedEdgesSpan(t, sel.short2);
      var edgeData := EdgePreRenderProcess(rounded[sel.long], rounded[sel.short1], screen.ClipY());
      if edgeData.Some? {
        var edgeOccluded := IsEdgeOccluded(edgeData.value);
        if !edgeOccluded {
          return false;
        }
      }
      edgeData := EdgePreRenderProcess(rounded[sel.long], rounded[sel.short2], screen.ClipY());
      if edgeData.Some? {
        var edgeOccluded := IsEdgeOccluded(edgeData.value);
        if !edgeOccluded {
          return false;
        }
      }
      return true;
    }

    /** The inner loop of the rectangle tests: row y from minX to maxX, false
        at the first stored depth below z. */
    method IsRowOccluded(y: int, minX: int, maxX: int, z: real) returns (occluded: bool)
      requires Valid()
      ensures occluded <==> forall x :: minX <= x <= maxX ==> !Visible(depthData[..], screen.Index(x, y), z)
    {
      var sampleCoordinate := y * screen.width + minX;
      var x := minX;
      while x <= maxX
        invariant minX <= x && (x <= maxX + 1 || x == minX) && sampleCoordinate == screen.Index(x, y)
        invariant forall x' :: minX <= x' < x ==> !Visible(depthData[..], screen.Index(x', y), z)
      {
        if 0 <= sampleCoordinate < depthData.Length && depthData[sampleCoordinate] < z {
          assert Visible(depthData[..], screen.Index(x, y), z);
          return false;
        }
        sampleCoordinate := sampleCoordinate + 1;
        x := x + 1;
      }
      return true;
    }

    /** The outer loop of the rectangle tests: rows from maxY down to minY. */
    method IsRectOccluded(minX: int, maxX: int, minY: int, maxY: int, z: real) returns (occluded: bool)
      requires Valid()
      ensures occluded == RectOccluded(depthData[..], screen, minX, maxX, minY, maxY, z)
    {
      var scanline := maxY;
      while scanline >= minY
        invariant scanline <= maxY && (scanline >= minY - 1 || scanline == maxY)
        invariant forall y, x :: scanline < y <= maxY && minX <= x <= maxX ==> !Visible(depthData[..], screen.Index(x, y), z)
      {
        var rowOccluded := IsRowOccluded(scanline, minX, maxX, z);
        if !rowOccluded {
          return false;
        }
        scanline := scanline - 1;
      }
      return true;
    }

    /** _isBoundingBoxScanlineOccluded(minmax): the rectangle of the clipped
        box envelope tested against its nearest depth; an index past the
        buffer reads undefined, which is never below the depth. */
    method IsBoundingBoxScanlineOccluded(minX: int, maxX: int, minY: int, maxY: int, minDepth: real) returns (occluded: bool)
      requires Valid()
      ensures occluded == RectOccluded(depthData[..], screen, minX, maxX, minY, maxY, minDepth)
    {
      occluded := IsRectOccluded(minX, maxX, minY, maxY, minDepth);
    }

    /** _isSSAABBScanlineOccluded: the rectangle rounded outwards, clamped to
        the screen and tested against the nearest depth. */
    method IsSSAABBScanlineOccluded(leftX: real, rightX: real, topY: real, bottomY: real, nearestDepth: real)
      returns (occluded: bool)
      requires Valid()
      ensures var r := SSAABBRect(leftX, rightX, topY, bottomY, screen);
        occluded == RectOccluded(depthData[..], screen, r.minX, r.maxX, r.minY, r.maxY, nearestDepth)
    {
      var left, right := Floor(leftX), Ceil(rightX);
      var firstScanline, lastScanline := Ceil(topY), Floor(bottomY);
      if left < 0 {
        left := 0;
      }
      if right > screen.ClipX() {
        right := screen.ClipX();
      }
      if firstScanline > screen.ClipY() {
        firstScanline := screen.ClipY();
      }
      if lastScanline < 0 {
        lastScanline := 0;
      }
      occluded := IsRectOccluded(left, right, lastScanline, firstScanline, nearestDepth);
    }

    /** _isOccluded: one pixel compared with the nearest depth. */
    method IsOccluded(x: int, y: int, nearestDepth: real) returns (occluded: bool)
      requires Valid()
      ensures occluded == PointOccluded(depthData[..], screen, x, y, nearestDepth)
    {
      if BoxClip.IsCoordinateInsideScreen(BoxClip.ScreenWindow(screen), x as real, y as real) {
        IndexInRange(screen, x, y);
        return nearestDepth < depthData[y * screen.width + x];
      }
      return true;
    }

    /** _boundingSphereOcclusionCulling: true when the sphere is hidden. The
        two early exits keep a sphere around the camera or crossing the near
        plane; otherwise the five probe points (nearest, left, right, top,
        bottom) are projected, mapped to pixels, rounded outwards and tested,
        followed by the circle fill test. */
    method BoundingSphereOcclusionCulling(world: Matrix4x4, axisRadius: real, compensate: (real, real) -> real,
                                          circleOccluded: (seq<real>, Pixel, Pixel, Pixel, Pixel, real) -> bool)
      returns (culled: bool)
      requires Valid()
      ensures culled == SphereCulled(depthData[..], screen, camera, world, axisRadius, compensate, circleOccluded)
    {
      var origin := ApplyPost(Combine(camera.view, world), Vec4(0.0, 0.0, 0.0, 1.0));
      culled := SphereTest(origin, axisRadius, compensate, circleOccluded);
    }

    /** The early exit for a sphere around the camera. */
    method SphereTest(origin: Vec4, axisRadius: real, compensate: (real, real) -> real,
                      circleOccluded: (seq<real>, Pixel, Pixel, Pixel, Pixel, real) -> bool)
      returns (culled: bool)
      requires Valid()
      ensures culled == SphereCulledAt(depthData[..], screen, camera, origin, axisRadius, compensate, circleOccluded)
    {
      var radius := Abs(axisRadius);
      var distanceSquared := DistanceSquared(origin);
      if CameraInside(origin, radius) {
        return false;
      }
      var compensated := compensate(distanceSquared, radius);
      culled := ProbeTest(origin, compensated, circleOccluded);
    }

    /** The rest of _boundingSphereOcclusionCulling once the radius is
        compensated. */
    method ProbeTest(origin: Vec4, radius: real, circleOccluded: (seq<real>, Pixel, Pixel, Pixel, Pixel, real) -> bool)
      returns (culled: bool)
      requires Valid()
      ensures culled == ProbesCulled(depthData[..], screen, camera, origin, radius, circleOccluded)
    {
      var nearCoord := Vec4(origin.x, origin.y, origin.z + radius, origin.w);
      if nearCoord.z > -camera.near {
        return false;
      }
      var v := ProjectProbes(origin, radius);
      var p := RoundProbes(v);
      culled := ProbesOccluded(p, Recip(v[0].w), circleOccluded);
    }

    /** The five probes around origin, through the projection and onto the
        screen. */
    method ProjectProbes(origin: Vec4, radius: real) returns (v: seq<Vec4>)
      ensures v == ScreenProbes(camera.proj, screen, SphereProbes(origin, radius))
    {
      var vertices := new Vec4[5];
      vertices[0], vertices[1], vertices[2] := Vec4(origin.x, origin.y, origin.z + radius, origin.w),
        Vec4(origin.x - radius, origin.y, origin.z, 1.0), Vec4(origin.x + radius, origin.y, origin.z, 1.0);
      vertices[3], vertices[4] := Vec4(origin.x, origin.y + radius, origin.z, 1.0), Vec4(origin.x, origin.y - radius, origin.z, 1.0);
      ghost var probes := vertices[..];
      assert probes == SphereProbes(origin, radius);
      NearClip.ProjectionTransform(vertices, camera.proj);
      NearClip.TransformToScreenSpace(vertices, screen);
      v := vertices[..];
    }

    /** The chain of point tests, top, left, right, bottom, nearest, then the
        circle fill, stopping at the first that fails. */
    method ProbesOccluded(p: seq<Pixel>, nearestDepth: real,
                          circleOccluded: (seq<real>, Pixel, Pixel, Pixel, Pixel, real) -> bool)
      returns (occluded: bool)
      requires Valid() && |p| == 5
      ensures occluded == PixelsOccluded(depthData[..], screen, p, nearestDepth, circleOccluded)
    {
      occluded := IsOccluded(p[3].x, p[3].y, nearestDepth);
      if occluded {
        occluded := IsOccluded(p[1].x, p[1].y, nearestDepth);
      }
      if occluded {
        occluded := IsOccluded(p[2].x, p[2].y, nearestDepth);
      }
      if occluded {
        occluded := IsOccluded(p[4].x, p[4].y, nearestDepth);
      }
      if occluded {
        occluded := IsOccluded(p[0].x, p[0].y, nearestDepth);
      }
      if occluded {
        occluded := circleOccluded(depthData[..], p[3], p[4], p[2], p[1], nearestDepth);
      }
    }

    /** _renderedBoundingBoxOcclusionTest: a box with a corner in front of
        the near plane is visible; otherwise it is occluded when each of its
        screen triangles is. */
    method RenderedBoundingBoxOcclusionTest(x: real, y: real, z: real, world: Matrix4x4) returns (occluded: bool)
      requires Valid()
      ensures occluded == BoxOccluded(depthData[..], screen, Combine(Combine(camera.proj, camera.view), world), x, y, z, camera.near)
    {
      var triangles := NearClip.CreateTrianglesForBoundingBox(x, y, z, world, Combine(camera.proj, camera.view), camera.near, screen);
      if triangles.None? {
        return false;
      }
      occluded := AllTrianglesOccluded(triangles.value);
    }

    /** The triangle loop of _renderedBoundingBoxOcclusionTest. */
    method AllTrianglesOccluded(ts: seq<Triangle>) returns (occluded: bool)
      requires Valid()
      ensures occluded <==> forall i :: 0 <= i < |ts| ==> TriangleOccluded(depthData[..], screen, ts[i])
    {
      for i := 0 to |ts|
        invariant forall j :: 0 <= j < i ==> TriangleOccluded(depthData[..], screen, ts[j])
      {
        var triangleOccluded := IsRenderedTriangleOccluded(ts[i]);
        if !triangleOccluded {
          return false;
        }
      }
      return true;
    }

    /** The triangle loop of render for one entity. */
    method RenderTriangles(triangles: seq<Triangle>)
      requires Valid()
      modifies depthData
      ensures Valid()
      ensures depthData[..] == RenderTrianglesResult(old(depthData[..]), screen, triangles)
    {
      ghost var before := depthData[..];
      for t := 0 to |triangles|
        invariant Valid()
        invariant depthData[..] == RenderTrianglesResult(before, screen, triangles[..t])
      {
        RenderTriangle(triangles[t]);
        assert triangles[..t + 1][..t] == triangles[..t];
      }
      assert triangles[..|triangles|] == triangles;
    }

    /** render: the buffer cleared, then every occluder's clipped screen
        triangles drawn in list order. */
    method Render(renderList: seq<Occluder>, unitW: Vec4) returns (unitW': Vec4)
      requires Valid() && ValidOccluders(renderList)
      modifies depthData
      ensures Valid()
      ensures depthData[..] == RenderResult(screen, camera, renderList)
      ensures unitW' == UnitWAfterRender(camera, renderList, unitW)
    {
      ClearDepthData();
      assert depthData[..] == Zeros(screen.Size());
      unitW' := unitW;
      for i := 0 to |renderList|
        invariant Valid()
        invariant depthData[..] == RenderOccluders(Zeros(screen.Size()), screen, camera, renderList[..i])
        invariant unitW' == UnitWAfterRender(camera, renderList[..i], unitW)
      {
        var e := renderList[i];
        var triangles;
        triangles, unitW' := NearClip.CreateTrianglesForEntity(e.positions, e.indices, e.world, camera.view,
                                                               camera.proj, camera.near, screen, unitW');
        RenderTriangles(triangles);
        assert renderList[..i + 1][..i] == renderList[..i];
      }
      assert renderList[..|renderList|] == renderList;
    }

    /** performOcclusionCulling: the list walked from the front, the test of
        each entity that may be culled run, and the entity spliced out (the
        index stepped back to compensate) while the hoisted `cull` holds. */
    method PerformOcclusionCulling(renderList: seq<Occludee>, compensate: (real, real) -> real,
                                   circleOccluded: (seq<real>, Pixel, Pixel, Pixel, Pixel, real) -> bool)
      returns (list: seq<Occludee>)
      requires Valid()
      ensures list == KeptEntities(renderList, EntityTest(depthData[..], screen, camera, compensate, circleOccluded))
    {
      ghost var test := EntityTest(depthData[..], screen, camera, compensate, circleOccluded);
      list := renderList;
      var cull := false;
      var i := 0;
      ghost var j := 0;
      while i < |list|
        invariant 0 <= i <= |list| && 0 <= j <= |renderList|
        invariant list[..i] == KeptEntities(renderList[..j], test)
        invariant list[i..] == renderList[j..]
        invariant cull == CullAfter(renderList[..j], test)
        decreases |list| - i
      {
        var entity := list[i];
        assert entity == renderList[j];
        KeptEntitiesStep(renderList, j, test);
        var next := cull;
        if entity.cullMode != "NeverOcclusionCull" {
          next := TestBound(entity, cull, compensate, circleOccluded);
        }
        list, i := SpliceStep(renderList, list, i, j, next, test);
        cull := next;
        j := j + 1;
      }
      assert renderList[..j] == renderList;
    }

    /** The bound tests of the loop body: a sphere or a box bound assigns
        `cull` the verdict of its test; any other bound leaves `cull` as the
        previous entity left it. */
    method TestBound(entity: Occludee, cull: bool, compensate: (real, real) -> real,
                     circleOccluded: (seq<real>, Pixel, Pixel, Pixel, Pixel, real) -> bool)
      returns (next: bool)
      requires Valid() && entity.cullMode != "NeverOcclusionCull"
      ensures next == (if entity.bound.OtherBound? then cull
                       else EntityTest(depthData[..], screen, camera, compensate, circleOccluded)(entity))
    {
      next := cull;
      match entity.bound {
        case BoundingSphere(axisRadius) =>
          next := BoundingSphereOcclusionCulling(entity.world, axisRadius, compensate, circleOccluded);
        case BoundingBox(xExtent, yExtent, zExtent) =>
          next := RenderedBoundingBoxOcclusionTest(xExtent, yExtent, zExtent, entity.world);
        case OtherBound =>
      }
    }
  }

  /** One step of the span loop adds the increment to the depth. */
  lemma SpanStep(sp: Span, x: int)
    ensures SpanDepth(sp, x + 1) == SpanDepth(sp, x) + SpanInc(sp)
  {
    assert (x + 1 - sp.left) as real * SpanInc(sp) == (x - sp.left) as real * SpanInc(sp) + SpanInc(sp);
  }

  /** One step of the scanline loop adds the increments to the edges. */
  lemma RowStep(d: EdgeData, k: nat)
    ensures RowLongX(d, k + 1) == RowLongX(d, k) + d.longXInc && RowShortX(d, k + 1) == RowShortX(d, k) + d.shortXInc
    ensures RowLongZ(d, k + 1) == RowLongZ(d, k) + d.longZInc && RowShortZ(d, k + 1) == RowShortZ(d, k) + d.shortZInc
  {
  }

  /** An occludee's bound: a sphere (its largest scaled axis times its
      radius), a box (its three half extents), or some other bound. */
  datatype Bound = BoundingSphere(axisRadius: real) | BoundingBox(xExtent: real, yExtent: real, zExtent: real) | OtherBound

  /** What performOcclusionCulling reads of an entity. */
  datatype Occludee = Occludee(cullMode: string, bound: Bound, world: Matrix4x4)

  /** What render reads of an entity: its occluder mesh and world transform. */
  datatype Occluder = Occluder(positions: seq<real>, indices: seq<nat>, world: Matrix4x4)

  /** A vertex rounded to a pixel. */
  datatype Pixel = Pixel(x: int, y: int)

  predicate ValidOccluders(list: seq<Occluder>) {
    forall i :: 0 <= i < |list| ==> NearClip.ValidMesh(list[i].positions, list[i].indices)
  }

  function Abs(x: real): real { if x < 0.0 then -x else x }

  /** The sphere centre in view space. */
  function SphereOrigin(cam: Camera, world: Matrix4x4): Vec4 {
    ApplyPost(Combine(cam.view, world), Vec4(0.0, 0.0, 0.0, 1.0))
  }

  function DistanceSquared(v: Vec4): real {
    v.x * v.x + v.y * v.y + v.z * v.z
  }

  /** The camera is inside the sphere of the given radius around origin. */
  predicate CameraInside(origin: Vec4, radius: real) {
    DistanceSquared(origin) <= radius * radius
  }

  /** The five probe points in view space: nearest, left, right, top, bottom. */
  function SphereProbes(origin: Vec4, radius: real): (p: seq<Vec4>)
    ensures |p| == 5
  {
    [Vec4(origin.x, origin.y, origin.z + radius, origin.w),
     Vec4(origin.x - radius, origin.y, origin.z, 1.0), Vec4(origin.x + radius, origin.y, origin.z, 1.0),
     Vec4(origin.x, origin.y + radius, origin.z, 1.0), Vec4(origin.x, origin.y - radius, origin.z, 1.0)]
  }

  /** The probes projected and mapped onto the screen. */
  function ScreenProbes(proj: Matrix4x4, s: Screen, probes: seq<Vec4>): (v: seq<Vec4>)
    ensures |v| == |probes|
  {
    seq(|probes|, i requires 0 <= i < |probes| => NearClip.ToScreen(NearClip.Project(proj, probes[i]), s))
  }

  /** p is within half a pixel of x (rounding to nearest, halves up). */
  predicate NearestPixel(p: int, x: real) {
    x - 0.5 < p as real <= x + 0.5
  }

  /** The conservative rounding of the five screen probes: left down and
      right up in x, top up and bottom down in y, rounded to nearest
      elsewhere. */
  function RoundProbes(v: seq<Vec4>): (p: seq<Pixel>)
    requires |v| == 5
    ensures |p| == 5
  {
    [Pixel(JsRound(v[0].x), JsRound(v[0].y)), Pixel(Floor(v[1].x), JsRound(v[1].y)),
     Pixel(Ceil(v[2].x), JsRound(v[2].y)), Pixel(JsRound(v[3].x), Ceil(v[3].y)),
     Pixel(JsRound(v[4].x), Floor(v[4].y))]
  }

  /** The rounding never moves the left and bottom probes right or up, nor
      the right and top probes left or down, and moves every other
      coordinate by at most half a pixel. */
  lemma RoundProbesOutward(v: seq<Vec4>)
    requires |v| == 5
    ensures var p := RoundProbes(v);
      p[1].x as real <= v[1].x && p[2].x as real >= v[2].x &&
      p[3].y as real >= v[3].y && p[4].y as real <= v[4].y &&
      NearestPixel(p[0].x, v[0].x) && NearestPixel(p[0].y, v[0].y) && NearestPixel(p[1].y, v[1].y) &&
      NearestPixel(p[2].y, v[2].y) && NearestPixel(p[3].x, v[3].x) && NearestPixel(p[4].x, v[4].x)
  {
    RoundingBounds(v[0].x); RoundingBounds(v[0].y); RoundingBounds(v[1].x); RoundingBounds(v[1].y);
    RoundingBounds(v[2].x); RoundingBounds(v[2].y); RoundingBounds(v[3].x); RoundingBounds(v[3].y);
    RoundingBounds(v[4].x); RoundingBounds(v[4].y);
  }

  /** _boundingSphereOcclusionCulling. The perspective compensation of the
      radius (distance * tan(asin(radius / distance)), given the squared
      distance) and the circle fill test are parameters. */
  function SphereCulled(depth: seq<real>, s: Screen, cam: Camera, world: Matrix4x4, axisRadius: real,
                        compensate: (real, real) -> real,
                        circleOccluded: (seq<real>, Pixel, Pixel, Pixel, Pixel, real) -> bool): bool
    requires |depth| == s.Size()
  {
    SphereCulledAt(depth, s, cam, SphereOrigin(cam, world), axisRadius, compensate, circleOccluded)
  }

  /** The sphere test for a view-space centre: a sphere around the camera is
      kept, else the compensated radius is passed on. */
  function SphereCulledAt(depth: seq<real>, s: Screen, cam: Camera, origin: Vec4, axisRadius: real,
                          compensate: (real, real) -> real,
                          circleOccluded: (seq<real>, Pixel, Pixel, Pixel, Pixel, real) -> bool): bool
    requires |depth| == s.Size()
  {
    var radius := Abs(axisRadius);
    if CameraInside(origin, radius) then false
    else ProbesCulled(depth, s, cam, origin, compensate(DistanceSquared(origin), radius), circleOccluded)
  }

  /** The sphere test once the radius is compensated: a sphere whose nearest
      point lies in front of the near plane is kept, else the probes decide. */
  function ProbesCulled(depth: seq<real>, s: Screen, cam: Camera, origin: Vec4, radius: real,
                        circleOccluded: (seq<real>, Pixel, Pixel, Pixel, Pixel, real) -> bool): bool
    requires |depth| == s.Size()
  {
    var probes := SphereProbes(origin, radius);
    if probes[0].z > -cam.near then false
    else
      var v := ScreenProbes(cam.proj, s, probes);
      PixelsOccluded(depth, s, RoundProbes(v), Recip(v[0].w), circleOccluded)
  }

  /** The point tests of top, left, right, bottom and nearest, then the
      circle fill; p lists nearest, left, right, top, bottom. */
  predicate PixelsOccluded(depth: seq<real>, s: Screen, p: seq<Pixel>, nearestDepth: real,
                           circleOccluded: (seq<real>, Pixel, Pixel, Pixel, Pixel, real) -> bool)
    requires |depth| == s.Size() && |p| == 5
  {
    PointOccluded(depth, s, p[3].x, p[3].y, nearestDepth) &&
    PointOccluded(depth, s, p[1].x, p[1].y, nearestDepth) &&
    PointOccluded(depth, s, p[2].x, p[2].y, nearestDepth) &&
    PointOccluded(depth, s, p[4].x, p[4].y, nearestDepth) &&
    PointOccluded(depth, s, p[0].x, p[0].y, nearestDepth) &&
    circleOccluded(depth, p[3], p[4], p[2], p[1], nearestDepth)
  }

  /** _renderedBoundingBoxOcclusionTest over the combined matrix m. */
  function BoxOccluded(depth: seq<real>, s: Screen, m: Matrix4x4, x: real, y: real, z: real, near: real): bool
    requires s.Valid()
  {
    var corners := BoxClip.GenerateBoundingBoxVertices(x, y, z);
    if exists k :: 0 <= k < 8 && ApplyPost(m, corners[k]).w < near then false
    else
      var ts := NearClip.BoxTriangles(NearClip.ProjectedCorners(m, x, y, z), BoxClip.BoundingBoxTriangleIndices(), s);
      forall i :: 0 <= i < |ts| ==> TriangleOccluded(depth, s, ts[i])
  }

  /** An entity whose test performOcclusionCulling runs: its cull mode allows
      culling and its bound is a sphere or a box. */
  predicate Tested(e: Occludee) {
    e.cullMode != "NeverOcclusionCull" && !e.bound.OtherBound?
  }

  /** The verdict of the sphere or box test on an entity with such a bound
      (false for any other bound). */
  function OwnVerdict(depth: seq<real>, s: Screen, cam: Camera, e: Occludee, compensate: (real, real) -> real,
                      circleOccluded: (seq<real>, Pixel, Pixel, Pixel, Pixel, real) -> bool): bool
    requires s.Valid() && |depth| == s.Size()
  {
    match e.bound
    case BoundingSphere(r) => SphereCulled(depth, s, cam, e.world, r, compensate, circleOccluded)
    case BoundingBox(x, y, z) => BoxOccluded(depth, s, Combine(Combine(cam.proj, cam.view), e.world), x, y, z, cam.near)
    case OtherBound => false
  }

  /** The tests against one depth buffer, camera and pair of oracles, as one
      verdict per entity. */
  function EntityTest(depth: seq<real>, s: Screen, cam: Camera, compensate: (real, real) -> real,
                      circleOccluded: (seq<real>, Pixel, Pixel, Pixel, Pixel, real) -> bool): Occludee -> bool
    requires s.Valid() && |depth| == s.Size()
  {
    e => OwnVerdict(depth, s, cam, e, compensate, circleOccluded)
  }

  // The loop of performOcclusionCulling, for any test: test(e) is the
  // verdict the sphere or box test gives a Tested entity e.

  /** The hoisted `cull` once the loop has visited list: undefined (so falsy)
      before the first entity, assigned by the test of every Tested entity,
      and left alone by every other entity. */
  function CullAfter(list: seq<Occludee>, test: Occludee -> bool): bool
    decreases |list|
  {
    if |list| == 0 then false
    else
      var e := list[|list| - 1];
      if Tested(e) then test(e) else CullAfter(list[..|list| - 1], test)
  }

  /** The loop splices out the last entity of list: its cull mode allows
      culling and `cull` holds once it has been visited. */
  predicate SplicesLast(list: seq<Occludee>, test: Occludee -> bool)
    requires |list| > 0
  {
    list[|list| - 1].cullMode != "NeverOcclusionCull" && CullAfter(list, test)
  }

  /** The render list after culling, built from its front. */
  function KeptEntities(list: seq<Occludee>, test: Occludee -> bool): seq<Occludee>
    decreases |list|
  {
    if |list| == 0 then []
    else KeptEntities(list[..|list| - 1], test) + (if SplicesLast(list, test) then [] else [list[|list| - 1]])
  }

  /** The splice of one pass of the culling loop, for any test: the entity
      at i leaves list when its cull mode allows culling and `cull` holds,
      and i steps back so that the next entity is not skipped. */
  method SpliceStep(renderList: seq<Occludee>, list: seq<Occludee>, i: nat, ghost j: nat, cull: bool,
                    ghost test: Occludee -> bool)
    returns (list': seq<Occludee>, i': nat)
    requires i < |list| && j < |renderList|
    requires list[..i] == KeptEntities(renderList[..j], test)
    requires list[i..] == renderList[j..]
    requires cull == CullAfter(renderList[..j + 1], test)
    ensures i' <= |list'| && |list'| - i' < |list| - i
    ensures list'[..i'] == KeptEntities(renderList[..j + 1], test)
    ensures list'[i'..] == renderList[j + 1..]
  {
    assert list[i] == renderList[j];
    KeptEntitiesStep(renderList, j, test);
    list' := list;
    var k: int := i;
    if list[i].cullMode != "NeverOcclusionCull" && cull {
      assert list[i + 1..] == renderList[j + 1..];
      list' := list[..i] + list[i + 1..];
      assert list'[..i] == list[..i];
      k := i - 1;
    }
    i' := k + 1;
  }

  /** One pass of the loop at position j: `cull` is updated by the test of
      list[j], and the kept prefix grows by list[j] unless it is spliced. */
  lemma KeptEntitiesStep(list: seq<Occludee>, j: nat, test: Occludee -> bool)
    requires j < |list|
    ensures CullAfter(list[..j + 1], test) == if Tested(list[j]) then test(list[j]) else CullAfter(list[..j], test)
    ensures KeptEntities(list[..j + 1], test) == KeptEntities(list[..j], test) +
      (if list[j].cullMode != "NeverOcclusionCull" && CullAfter(list[..j + 1], test) then [] else [list[j]])
  {
    assert list[..j + 1][..j] == list[..j];
  }

  /** Whether the loop splices each entity of the list, in order. */
  function Verdicts(list: seq<Occludee>, test: Occludee -> bool): (v: seq<bool>)
    ensures |v| == |list|
    decreases |list|
  {
    if |list| == 0 then []
    else Verdicts(list[..|list| - 1], test) + [SplicesLast(list, test)]
  }

  /** The entities of list whose verdict is false, in order. */
  function Unculled(list: seq<Occludee>, culled: seq<bool>): seq<Occludee>
    requires |culled| == |list|
    decreases |list|
  {
    if |list| == 0 then []
    else
      var n := |list| - 1;
      Unculled(list[..n], culled[..n]) + (if culled[n] then [] else [list[n]])
  }

  /** The positions of the entities Unculled keeps. */
  function UnculledIndices(culled: seq<bool>): (idx: seq<nat>)
    ensures forall k :: 0 <= k < |idx| ==> idx[k] < |culled|
    decreases |culled|
  {
    if |culled| == 0 then []
    else
      var n := |culled| - 1;
      UnculledIndices(culled[..n]) + (if culled[n] then [] else [n])
  }

  /** The kept positions are increasing and are exactly those whose verdict
      is false. */
  lemma {:induction false} UnculledIndicesExact(culled: seq<bool>)
    ensures var idx := UnculledIndices(culled);
      (forall k, l :: 0 <= k < l < |idx| ==> idx[k] < idx[l]) &&
      (forall i :: 0 <= i < |culled| ==> (i in idx <==> !culled[i]))
    decreases |culled|
  {
    if |culled| > 0 {
      var n := |culled| - 1;
      var c0 := culled[..n];
      UnculledIndicesExact(c0);
      var idx0 := UnculledIndices(c0);
      assert UnculledIndices(culled) == idx0 + (if culled[n] then [] else [n]);
      forall i | 0 <= i < |culled|
        ensures i in UnculledIndices(culled) <==> !culled[i]
      {
        if i < n {
          assert c0[i] == culled[i];
        } else {
          assert i !in idx0;
        }
      }
    }
  }

  /** Unculled takes, in order, the entities at the kept positions. */
  lemma {:induction false} UnculledPicks(list: seq<Occludee>, culled: seq<bool>)
    requires |culled| == |list|
    ensures var r, idx := Unculled(list, culled), UnculledIndices(culled);
      |r| == |idx| && forall k :: 0 <= k < |idx| ==> r[k] == list[idx[k]]
    decreases |list|
  {
    if |list| > 0 {
      var n := |list| - 1;
      var front, c0 := list[..n], culled[..n];
      UnculledPicks(front, c0);
      var r0, idx0 := Unculled(front, c0), UnculledIndices(c0);
      var r, idx := Unculled(list, culled), UnculledIndices(culled);
      assert r == r0 + (if culled[n] then [] else [list[n]]);
      assert idx == idx0 + (if culled[n] then [] else [n]);
      forall k | 0 <= k < |idx|
        ensures r[k] == list[idx[k]]
      {
        if k < |idx0| {
          assert r[k] == r0[k] == front[idx0[k]];
        }
      }
    }
  }

  /** Unculled is an order-preserving subsequence holding exactly the
      entities whose verdict is false. */
  lemma UnculledIsOrderedFilter(list: seq<Occludee>, culled: seq<bool>)
    requires |culled| == |list|
    ensures var r, idx := Unculled(list, culled), UnculledIndices(culled);
      |r| == |idx| &&
      (forall k :: 0 <= k < |idx| ==> r[k] == list[idx[k]]) &&
      (forall k, l :: 0 <= k < l < |idx| ==> idx[k] < idx[l]) &&
      (forall i :: 0 <= i < |list| ==> (i in idx <==> !culled[i]))
  {
    UnculledPicks(list, culled);
    UnculledIndicesExact(culled);
  }

  /** The culled list is Unculled under the loop's verdicts. */
  lemma {:induction false} KeptIsUnculled(list: seq<Occludee>, test: Occludee -> bool)
    ensures KeptEntities(list, test) == Unculled(list, Verdicts(list, test))
    decreases |list|
  {
    if |list| > 0 {
      var n := |list| - 1;
      KeptIsUnculled(list[..n], test);
      assert Verdicts(list, test)[..n] == Verdicts(list[..n], test);
    }
  }

  /** The verdict at position i: the entity may be culled and `cull` holds
      once the loop has visited it. */
  lemma {:induction false} VerdictAt(list: seq<Occludee>, i: nat, test: Occludee -> bool)
    requires i < |list|
    ensures Verdicts(list, test)[i] == (list[i].cullMode != "NeverOcclusionCull" && CullAfter(list[..i + 1], test))
    decreases |list|
  {
    var n := |list| - 1;
    if i < n {
      VerdictAt(list[..n], i, test);
      assert list[..n][..i + 1] == list[..i + 1];
    } else {
      assert list[..i + 1] == list;
    }
  }

  /** The position of the last Tested entity of list, -1 when there is none. */
  function LastTested(list: seq<Occludee>): (k: int)
    ensures -1 <= k < |list|
    ensures k >= 0 ==> Tested(list[k])
    ensures forall l :: k < l < |list| ==> !Tested(list[l])
    decreases |list|
  {
    if |list| == 0 then -1
    else if Tested(list[|list| - 1]) then |list| - 1
    else
      var k := LastTested(list[..|list| - 1]);
      assert forall l :: k < l < |list| - 1 ==> list[..|list| - 1][l] == list[l];
      k
  }

  /** `cull` is the verdict of the last Tested entity of the list, and false
      when the list has none. */
  lemma {:induction false} CullIsLastTested(list: seq<Occludee>, test: Occludee -> bool)
    ensures var k := LastTested(list); CullAfter(list, test) == (k >= 0 && test(list[k]))
    decreases |list|
  {
    if |list| > 0 {
      var n := |list| - 1;
      CullIsLastTested(list[..n], test);
      if !Tested(list[n]) {
        var k := LastTested(list[..n]);
        assert k >= 0 ==> list[..n][k] == list[k];
      }
    }
  }

  /** A Tested entity is spliced exactly when its own test culls it. */
  lemma TestedVerdict(list: seq<Occludee>, i: nat, test: Occludee -> bool)
    requires i < |list| && Tested(list[i])
    ensures Verdicts(list, test)[i] == test(list[i])
  {
    VerdictAt(list, i, test);
    assert list[..i + 1][i] == list[i];
  }

  /** An entity that may be culled but has neither a sphere nor a box bound
      is spliced exactly when the last Tested entity before it was culled. */
  lemma InheritedVerdict(list: seq<Occludee>, i: nat, test: Occludee -> bool)
    requires i < |list| && list[i].cullMode != "NeverOcclusionCull" && list[i].bound.OtherBound?
    ensures var k := LastTested(list[..i]);
      k < i && Verdicts(list, test)[i] == (k >= 0 && test(list[k]))
  {
    VerdictAt(list, i, test);
    assert list[..i + 1][..i] == list[..i];
    CullIsLastTested(list[..i], test);
    var k := LastTested(list[..i]);
    assert k >= 0 ==> list[..i][k] == list[k];
  }

  /** Entities that may never be occlusion culled stay in the list. */
  lemma AlwaysKept(list: seq<Occludee>, i: nat, test: Occludee -> bool)
    requires i < |list| && list[i].cullMode == "NeverOcclusionCull"
    ensures list[i] in KeptEntities(list, test)
  {
    var v := Verdicts(list, test);
    KeptIsUnculled(list, test);
    UnculledIsOrderedFilter(list, v);
    VerdictAt(list, i, test);
    var idx := UnculledIndices(v);
    assert i in idx;
    var k :| 0 <= k < |idx| && idx[k] == i;
    assert Unculled(list, v)[k] == list[i];
  }

  /** The render list culled with each entity judged by its own test alone:
      only a Tested entity whose test culls it is removed. */
  function IntendedKept(list: seq<Occludee>, test: Occludee -> bool): seq<Occludee>
    decreases |list|
  {
    if |list| == 0 then []
    else
      var last := list[|list| - 1];
      IntendedKept(list[..|list| - 1], test) + (if Tested(last) && test(last) then [] else [last])
  }

  /** A culled Tested entity followed by an entity that may be culled but has
      another bound: the loop removes both, while judging each entity by its
      own test keeps the second. */
  lemma InheritedSplice(a: Occludee, b: Occludee, test: Occludee -> bool)
    requires Tested(a) && test(a)
    requires b.cullMode != "NeverOcclusionCull" && b.bound.OtherBound?
    ensures KeptEntities([a, b], test) == []
    ensures IntendedKept([a, b], test) == [b]
  {
    assert [a, b][..1] == [a] && [a][..0] == [];
    assert CullAfter([a, b], test) == CullAfter([a], test) == test(a);
    assert KeptEntities([a], test) == KeptEntities([], test) + [];
    assert IntendedKept([a], test) == IntendedKept([], test) + [];
  }

  /** Judged by their own tests, entities that may never be culled and
      entities with neither a sphere nor a box bound stay in the list. */
  lemma {:induction false} AlwaysKeptIntended(list: seq<Occludee>, i: nat, test: Occludee -> bool)
    requires i < |list| && !Tested(list[i])
    ensures list[i] in IntendedKept(list, test)
    decreases |list|
  {
    var n := |list| - 1;
    if i < n {
      AlwaysKeptIntended(list[..n], i, test);
    }
  }

  /** On a list where every entity that may be culled has a sphere or a box
      bound, the hoisted `cull` makes no difference. */
  lemma {:induction false} AgreesWithoutOtherBounds(list: seq<Occludee>, test: Occludee -> bool)
    requires forall k :: 0 <= k < |list| && list[k].cullMode != "NeverOcclusionCull" ==> !list[k].bound.OtherBound?
    ensures KeptEntities(list, test) == IntendedKept(list, test)
    decreases |list|
  {
    if |list| > 0 {
      var n := |list| - 1;
      AgreesWithoutOtherBounds(list[..n], test);
    }
  }

  function Zeros(n: nat): (z: seq<real>)
    ensures |z| == n && forall k :: 0 <= k < n ==> z[k] == 0.0
  {
    seq(n, _ => 0.0)
  }

  /** The buffer after drawing triangles in order. */
  function RenderTrianglesResult(depth: seq<real>, s: Screen, ts: seq<Triangle>): (r: seq<real>)
    requires s.Valid()
    ensures |r| == |depth|
    decreases |ts|
  {
    if |ts| == 0 then depth
    else RenderTriangleResult(RenderTrianglesResult(depth, s, ts[..|ts| - 1]), s, ts[|ts| - 1])
  }

  /** The buffer after drawing every occluder of the list in order. */
  function RenderOccluders(depth: seq<real>, s: Screen, cam: Camera, list: seq<Occluder>): (r: seq<real>)
    requires s.Valid() && ValidOccluders(list)
    ensures |r| == |depth|
    decreases |list|
  {
    if |list| == 0 then depth
    else
      var e := list[|list| - 1];
      RenderTrianglesResult(RenderOccluders(depth, s, cam, list[..|list| - 1]), s,
        NearClip.MeshTriangles(e.positions, Combine(cam.view, e.world), e.indices, cam.proj, cam.near, s))
  }

  /** The shared Vector4.UNIT_W after render has walked the list: the scratch
      vector of the last occluder that has a position. */
  function UnitWAfterRender(cam: Camera, list: seq<Occluder>, unitW: Vec4): Vec4
    requires ValidOccluders(list)
    decreases |list|
  {
    if |list| == 0 then unitW
    else
      var e := list[|list| - 1];
      NearClip.ScratchAfter(e.positions, Combine(cam.view, e.world), UnitWAfterRender(cam, list[..|list| - 1], unitW))
  }

  /** render: the list drawn over a cleared buffer. */
  function RenderResult(s: Screen, cam: Camera, list: seq<Occluder>): (r: seq<real>)
    requires s.Valid() && ValidOccluders(list)
    ensures |r| == s.Size()
  {
    RenderOccluders(Zeros(s.Size()), s, cam, list)
  }
}
