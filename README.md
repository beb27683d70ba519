# Occlusion rasterizer and timeline channels of goojs

This project models two parts of the goojs engine in Dafny and proves properties of the model.

**The software occlusion renderer** (`src/goo/renderer/scanline/SoftwareRenderer.js`) keeps a buffer of
1/w values, one per pixel. `render` clears the buffer. It then transforms every occluder triangle to view
space, drops back faces, clips the triangle at the near plane, projects it and maps it to the screen. Each
resulting triangle is scan-converted with a keep-max write. `performOcclusionCulling` then tests every
occludee against that buffer and splices out the ones it finds hidden. A bounding sphere is tested with
five probe pixels and a circle fill. A bounding box is tested by rasterising its projected faces.
The vertex transform of `render` uses goo's shared constant `Vector4.UNIT_W` as its scratch vector, so
the model carries that constant's value in and out of `render`.

**The timeline pack** (`out/timelinepack.js`, a single minified line) covers several pieces:
- `ValueChannel`: interpolates eased keyframe values.
- `EventChannel`: fires keyframe callbacks as time passes.
- `TimelineComponent`: advances, wraps or clamps a time and updates its channels.
- `TimelineSystem`: drives the components and handles reset requests.

The modules follow the source:

| file | module | source |
|---|---|---|
| `geometry.dfy` | `Geometry` | vectors, matrices, triangles, edges, rounding, the screen |
| `box_clip.dfy` | `BoxClip` | outcodes, bounding-box tables, `_cohenSutherlandClipBox` |
| `near_clip.dfy` | `NearClip` | back-face tests, near-plane clipping, `_createTrianglesForEntity`, `_createTrianglesForBoundingBox` |
| `raster.dfy` | `Raster` | spans, `_fillPixels`, `_isScanlineOccluded`, `_edgePreRenderProcess`, triangle edges, rectangle and point tests |
| `renderer.dfy` | `Renderer` | the renderer object with its depth buffer, `render`, `performOcclusionCulling` and the occludee tests |
| `timeline.dfy` | `Timeline` | channels, components and the system |

The code that changes state in place is modelled as methods:
- the depth buffer is an `array<real>` of the `SoftwareRenderer` class;
- the envelope `minmaxArray` is an `array`;
- the vertex lists are arrays;
- each channel and component is a class.

Each such method is proved against a function on values: `FillPixelsResult`, `RenderResult`, `KeptEntities`,
`UpdateValue`, `UpdateEvent` and so on. The lemmas are stated about those functions.

Source paths below are relative to the repository root. Every timeline member cites `out/timelinepack.js:1`,
because that file is one line.

## Model

| member | source | states |
|---|---|---|
| Geometry.MakeEdge | src/goo/renderer/scanline/SoftwareRenderer.js:1746-1750 | An edge lists its endpoint with the smaller y first and takes each endpoint's depth from w. The endpoints are the two given vertices, in one order or the other. |
| Geometry.RoundOccluderEdge | src/goo/renderer/scanline/SoftwareRenderer.js:1852-1856 | Rounding an ordered edge to pixels keeps y0 <= y1. |
| Geometry.IndexInRange | src/goo/renderer/scanline/SoftwareRenderer.js:2104 | Every on-screen pixel (x, y) addresses a slot y * width + x inside the buffer. |
| Geometry.IndexInjective | src/goo/renderer/scanline/SoftwareRenderer.js:2104 | Two on-screen pixels share a slot only when they are the same pixel. |
| BoxClip.ScreenWindow | src/goo/renderer/scanline/SoftwareRenderer.js:28-29 | The clip window of a non-empty screen, [0, width - 1] x [0, height - 1], has non-negative borders. |
| BoxClip.InsideScreenIsOnScreen | src/goo/renderer/scanline/SoftwareRenderer.js:1393-1395 | On a screen's window, a whole-pixel coordinate passes _isCoordinateInsideScreen exactly when it addresses a pixel of the screen. |
| BoxClip.CalculateOutCode | src/goo/renderer/scanline/SoftwareRenderer.js:598-616 | The code is INSIDE exactly when _isCoordinateInsideScreen holds of the point. |
| BoxClip.OutCodeBits | src/goo/renderer/scanline/SoftwareRenderer.js:598-616 | Each bit is set exactly when the point is beyond its border, with x tested before y. LEFT and RIGHT are never both set, nor BELOW and ABOVE. |
| BoxClip.GenerateBoundingBoxVertices | src/goo/renderer/scanline/SoftwareRenderer.js:234-253 | Eight corners with w = 1. The sign of each coordinate of corner k is given by its axis predicates. |
| BoxClip.GenerateBoundingBoxEdgeIndices | src/goo/renderer/scanline/SoftwareRenderer.js:98-115 | Twelve index pairs of distinct corners below 8. |
| BoxClip.EdgeTableDiagonal | src/goo/renderer/scanline/SoftwareRenderer.js:98-115 | Entry 7 is (7, 0), a face diagonal and not a box edge. Every other entry is a box edge, and the box edge 4-7 is absent. |
| BoxClip.GenerateBoundingBoxNeighbourIndices | src/goo/renderer/scanline/SoftwareRenderer.js:120-157 | Every corner gets three distinct corners, each joined to it by a box edge. |
| BoxClip.DefaultNeighbours | src/goo/renderer/scanline/SoftwareRenderer.js:146-150 | The default arm of the switch gives the true neighbours of corners 1, 2, 5 and 6. |
| BoxClip.BoundingBoxTriangleIndices | src/goo/renderer/scanline/SoftwareRenderer.js:55-72 | Thirty-six corner indices, all below 8. |
| BoxClip.TrianglesLieInFaces | src/goo/renderer/scanline/SoftwareRenderer.js:57-70 | Each index triple names three distinct corners of one face of the box. |
| BoxClip.RowCrossing | src/goo/renderer/scanline/SoftwareRenderer.js:505-538 | The point computed on the top or bottom border lies on the edge's line, between the two endpoints. Moving the outside endpoint there shrinks the union of the two codes. |
| BoxClip.ColumnCrossing | src/goo/renderer/scanline/SoftwareRenderer.js:539-571 | The same for the right and left borders. |
| BoxClip.CutProgress | src/goo/renderer/scanline/SoftwareRenderer.js:460-588 | A cut between the endpoints that clears the bit being clipped makes the union of the codes strictly smaller, so the clipping loop ends. |
| BoxClip.PointsBetween | src/goo/renderer/scanline/SoftwareRenderer.js:460-588 | A point of the line between two others stays within every border both of them respect. |
| BoxClip.TakeRowCut | src/goo/renderer/scanline/SoftwareRenderer.js:505-538 | The new envelope is the old one with maxY or minY set to the border and [minX, maxX] widened to x. It keeps every covered on-screen point, and once the envelope holds an on-screen point it covers the cut point. |
| BoxClip.TakeColumnCut | src/goo/renderer/scanline/SoftwareRenderer.js:539-571 | The same for the column borders, with [minY, maxY] widened to y. |
| BoxClip.ClipStep | src/goo/renderer/scanline/SoftwareRenderer.js:497-571 | The cut point is on the line between the two points and its code is the new code. The code union shrinks, slots only take on-screen values, and a cut that lands on the screen is covered. |
| BoxClip.InterpolatedDepth | src/goo/renderer/scanline/SoftwareRenderer.js:574-587 | The depth slot takes (1 - ratio) * wa + ratio * wb when that is nearer, and never decreases. |
| BoxClip.ClipPass | src/goo/renderer/scanline/SoftwareRenderer.js:497-587 | One pass moves the outside endpoint (the first one when it is outside) along the line towards the other, which stays put, and strictly shrinks the code union. It keeps covering every on-screen corner, and covers a moved endpoint that lands on the screen. |
| BoxClip.ClipEdge | src/goo/renderer/scanline/SoftwareRenderer.js:460-588 | The clipping loop of one edge terminates with two points of the segment that are trivially accepted or rejected. An inside endpoint stays where it is, a trivial edge leaves the envelope unchanged, and every cut that lands on the screen is covered. Slots only take on-screen values, and the depth never decreases. |
| BoxClip.ClipBoxEdge | src/goo/renderer/scanline/SoftwareRenderer.js:460-589 | One more table edge is clipped and accounted for, so the edge-loop invariant moves from edge i to edge i + 1. |
| BoxClip.AddCorner | src/goo/renderer/scanline/SoftwareRenderer.js:430-455 | Returns the corner's outcode. The envelope is widened by an on-screen corner and otherwise unchanged. |
| BoxClip.AddCorners | src/goo/renderer/scanline/SoftwareRenderer.js:430-455 | The eight corners' outcodes are recorded, and the envelope becomes exactly the old one widened by every on-screen corner. |
| BoxClip.CohenSutherlandClipBox | src/goo/renderer/scanline/SoftwareRenderer.js:419-591 | Every x/y slot keeps its initial value or holds an on-screen value, and the depth never decreases. The envelope covers every on-screen corner with its x, y and w. With all corners on screen it is exactly the corners' envelope. Each of the twelve table edges is clipped to a part of its segment, and once some corner is on screen every clipped endpoint on the screen is covered. |
| BoxClip.CornerEnvelopeExact | src/goo/renderer/scanline/SoftwareRenderer.js:419-455 | From the initial [+Infinity, -Infinity, +Infinity, -Infinity, -Infinity], on-screen corners give finite slots that bound every corner and are each attained by one of them. |
| NearClip.ViewSpaceFacing | src/goo/renderer/scanline/SoftwareRenderer.js:1667-1701 | The view-space test is back-facing exactly when the vertex determinant is positive. It does not depend on the starting vertex, and reversing the winding turns a back face into a front face. |
| NearClip.ProjectedFacing | src/goo/renderer/scanline/SoftwareRenderer.js:1712-1731 | The projected test is invariant under rotating the vertices and inverted by reversing them. |
| NearClip.Homogenize | src/goo/renderer/scanline/SoftwareRenderer.js:1544-1555 | z and w are kept, and for w != 0 the new x and y times w give back the old ones. |
| NearClip.ToScreen | src/goo/renderer/scanline/SoftwareRenderer.js:1639-1657 | z and w are kept. x = -1 and y = -1 go to 0, and x = 1 and y = 1 go to clipX and clipY. |
| NearClip.ToScreenInRange | src/goo/renderer/scanline/SoftwareRenderer.js:1639-1657 | The square [-1, 1] x [-1, 1] lands inside [0, clipX] x [0, clipY]. |
| NearClip.ToScreenKeepsFacing | src/goo/renderer/scanline/SoftwareRenderer.js:1639-1657 | The transform scales the signed area by (clipX / 2)(clipY / 2). On a screen over one pixel each way it preserves the projected back-face verdict. |
| NearClip.ProjectionTransform | src/goo/renderer/scanline/SoftwareRenderer.js:1544-1555 | Every array entry becomes its projection divided by w. |
| NearClip.TransformToScreenSpace | src/goo/renderer/scanline/SoftwareRenderer.js:1639-1657 | Every array entry becomes its screen transform. |
| NearClip.CategorizeIsPartition | src/goo/renderer/scanline/SoftwareRenderer.js:1591-1601 | The two lists split 0, 1 and 2 in increasing order. An index is inside exactly when its z <= cameraNear. |
| NearClip.CategorizeVertices | src/goo/renderer/scanline/SoftwareRenderer.js:1591-1601 | The loop's lists form that partition. |
| NearClip.IntersectionRatio | src/goo/renderer/scanline/SoftwareRenderer.js:1616-1632 | At the ratio, the segment's z equals -near. |
| NearClip.RatioInUnitInterval | src/goo/renderer/scanline/SoftwareRenderer.js:1616-1632 | From a vertex in front of the plane to one beyond it, the ratio lies in (0, 1]. |
| NearClip.NearPlanePoint | src/goo/renderer/scanline/SoftwareRenderer.js:1476-1490 | The moved vertex lies on the plane z = -near and keeps the origin's w. |
| NearClip.NearPlanePointMoves | src/goo/renderer/scanline/SoftwareRenderer.js:1476-1490 | Each of x, y and z of the moved vertex is the origin's coordinate moved by the crossing ratio towards the target. |
| NearClip.ClipNearPlane | src/goo/renderer/scanline/SoftwareRenderer.js:1452-1518 | There is no result exactly when all three vertices are in front of the plane (three outside). Otherwise the split is the categorisation, and four vertices remain when one was outside, three otherwise. |
| NearClip.ClippedOnPlane | src/goo/renderer/scanline/SoftwareRenderer.js:1465-1517 | After clipping every vertex has z <= -near. Vertices already beyond the plane are unchanged, and the others lie on it. |
| NearClip.ShapeThree | src/goo/renderer/scanline/SoftwareRenderer.js:1457-1464 | Three outside indices exactly when every vertex is in front of the plane. |
| NearClip.ClipOneOutside | src/goo/renderer/scanline/SoftwareRenderer.js:1465-1495 | The outside vertex is moved onto the plane, a fourth vertex on the plane is appended, and the inside vertices are unchanged. |
| NearClip.ClipTwoOutside | src/goo/renderer/scanline/SoftwareRenderer.js:1496-1517 | Both outside vertices are moved onto the plane, and the inside vertex is unchanged. |
| NearClip.CreateTriangles | src/goo/renderer/scanline/SoftwareRenderer.js:1566-1580 | Gives |vertices| - 2 triangles built only from the clipped vertices. Together they use every clipped vertex. |
| NearClip.TrianglesTileClipped | src/goo/renderer/scanline/SoftwareRenderer.js:1566-1580 | Three clipped vertices give exactly the clipped triangle. Four give two triangles sharing the diagonal from the first inside vertex to the appended one, whose signed area vectors add up to the clipped quadrilateral's. |
| NearClip.ShoelaceOtherDiagonal | src/goo/renderer/scanline/SoftwareRenderer.js:1566-1580 | A quadrilateral's signed area is the same when split along its other diagonal. |
| NearClip.CutCornerArea | src/goo/renderer/scanline/SoftwareRenderer.js:1476-1495 | Cutting corner o off a triangle at ratios r0 and r1 along its two edges leaves a quadrilateral with 1 - r0 r1 of the triangle's signed area. |
| NearClip.ShrinkArea | src/goo/renderer/scanline/SoftwareRenderer.js:1496-1517 | Moving two corners towards the third at ratios rp and rq scales the signed area by (1 - rp)(1 - rq). |
| NearClip.ClipOneOutsideArea | src/goo/renderer/scanline/SoftwareRenderer.js:1465-1495 | With one vertex in front of the plane, the clipped quadrilateral has 1 - r0 r1 of the triangle's signed area, with the same orientation. |
| NearClip.CutCornerAreaBy | src/goo/renderer/scanline/SoftwareRenderer.js:1476-1495 | Cutting a corner at ratios r0 and r1 scales the signed area by any k equal to 1 - r0 r1. |
| NearClip.ClipTwoOutsideArea | src/goo/renderer/scanline/SoftwareRenderer.js:1496-1517 | With two vertices in front of the plane, the clipped triangle has (1 - r0)(1 - r1) of the original signed area, listed in the original order. |
| NearClip.MovedTowardsArea | src/goo/renderer/scanline/SoftwareRenderer.js:1496-1517 | Moving two vertices onto the plane towards the third scales the signed area by the product of one minus each crossing ratio. |
| NearClip.MovedTowardsAreaBy | src/goo/renderer/scanline/SoftwareRenderer.js:1496-1517 | The same for any ratios r0 and r1 the two vertices moved by, with k equal to (1 - r0)(1 - r1). |
| NearClip.OccluderTriangleCount | src/goo/renderer/scanline/SoftwareRenderer.js:1443-1532 | An occluder triangle leaves 0 triangles if it is back-facing or wholly in front of the plane, 2 if exactly one vertex is in front, and 1 otherwise. |
| NearClip.MeshTriangleCount | src/goo/renderer/scanline/SoftwareRenderer.js:1430-1535 | A mesh of n index triples gives at most 2n screen triangles. |
| NearClip.CreateTrianglesForEntity | src/goo/renderer/scanline/SoftwareRenderer.js:1403-1536 | The result is MeshTriangles over the combined view-world matrix: the triples' triangles, in order. Vector4.UNIT_W is left as ScratchAfter: the last position's transform. |
| NearClip.TransformPositions | src/goo/renderer/scanline/SoftwareRenderer.js:1419-1428 | The buffer holds the view-space x, y, z of every position. The scratch vector, the shared Vector4.UNIT_W, ends as the last position's transform and is untouched when there is none. |
| NearClip.UnitWKeptIff | src/goo/renderer/scanline/SoftwareRenderer.js:1420-1427 | Vector4.UNIT_W keeps its value exactly when the mesh has no position or its last position is taken to (0, 0, 0, 1). |
| NearClip.TriangleLoop | src/goo/renderer/scanline/SoftwareRenderer.js:1430-1533 | The loop over index triples builds MeshTriangles. |
| NearClip.MeshTrianglesStep | src/goo/renderer/scanline/SoftwareRenderer.js:1430-1533 | One more triple appends exactly that triple's triangles. |
| NearClip.ReadVertex | src/goo/renderer/scanline/SoftwareRenderer.js:1432-1439 | The vertex read from the buffer is the view-space vertex of that index, with w = 1. |
| NearClip.ClipAndProject | src/goo/renderer/scanline/SoftwareRenderer.js:1441-1532 | The loop body produces OccluderTriangles of the view-space triangle. |
| NearClip.BoxTrianglesWinding | src/goo/renderer/scanline/SoftwareRenderer.js:283-306 | At most one triangle is kept per triple. On a screen over one pixel each way, every kept triangle still tests back-facing after the screen transform. |
| NearClip.CreateTrianglesForBoundingBox | src/goo/renderer/scanline/SoftwareRenderer.js:255-309 | The result is false exactly when some transformed corner has w below near. Otherwise it is the triples that _isBackFacingProjected accepts, mapped to the screen. |
| NearClip.ProjectCorners | src/goo/renderer/scanline/SoftwareRenderer.js:265-279 | Fails exactly when some corner's w is below near. Otherwise every corner is divided by its w. |
| NearClip.KeepBoxTriangles | src/goo/renderer/scanline/SoftwareRenderer.js:283-306 | Keeps the accepted triples, in order. |
| Raster.ClipSpan | src/goo/renderer/scanline/SoftwareRenderer.js:2073-2102 | A span is dropped exactly when it lies wholly off [0, clipX]. Otherwise its ends are the swapped ends clamped to the screen, and an unclamped end keeps its depth. |
| Raster.ClipSpanOnSegment | src/goo/renderer/scanline/SoftwareRenderer.js:2091-2102 | The clipped ends' depths lie on the original depth segment. |
| Raster.SpanDepthEnds | src/goo/renderer/scanline/SoftwareRenderer.js:2104-2117 | The span loop's depth runs from leftZ at the left end to rightZ at the right end. |
| Raster.FillPixelsKeepsMax | src/goo/renderer/scanline/SoftwareRenderer.js:2069-2128 | _fillPixels only raises depths and touches only the span's pixels. Each of those ends at least at the interpolated depth, and is either kept or set to it. |
| Raster.FillThenOccluded | src/goo/renderer/scanline/SoftwareRenderer.js:2005-2128 | A span just filled is reported occluded by _isScanlineOccluded with the same arguments. |
| Raster.ScanlineOccludedMonotone | src/goo/renderer/scanline/SoftwareRenderer.js:2005-2062 | Raising the buffer never makes an occluded span visible. |
| Raster.EdgePreRenderProcess | src/goo/renderer/scanline/SoftwareRenderer.js:1930-2003 | Nothing is returned exactly when the short edge has no height. Otherwise the rows run from max(y0, 0) to min(y1, clipY). |
| Raster.PreRenderFields | src/goo/renderer/scanline/SoftwareRenderer.js:1943-1996 | Each returned field, in terms of the two edges and the rows skipped by the vertical clip. |
| Raster.PreRenderFollowsEdges | src/goo/renderer/scanline/SoftwareRenderer.js:1930-2003 | After k steps, the loop's x and depth for each edge equal that edge's interpolated x and depth on row start + k. |
| Raster.DrawRowsRaises | src/goo/renderer/scanline/SoftwareRenderer.js:1901-1925 | _drawEdges only raises stored depths. |
| Raster.RowsOccludedMonotone | src/goo/renderer/scanline/SoftwareRenderer.js:1869-1895 | Raising the buffer never makes occluded scanlines visible. |
| Raster.TriangleEdges | src/goo/renderer/scanline/SoftwareRenderer.js:1746-1750 | Three edges, each ordered by y. |
| Raster.LongEdgeIndex | src/goo/renderer/scanline/SoftwareRenderer.js:1752-1762 | The first edge of greatest height. |
| Raster.EdgesWithinTriangle | src/goo/renderer/scanline/SoftwareRenderer.js:1746-1762 | Every edge lies within the triangle's vertical range, and one spans all of it. |
| Raster.LongEdgeSpansTriangle | src/goo/renderer/scanline/SoftwareRenderer.js:1752-1772 | The long edge runs from the topmost to the bottommost vertex and covers the other edges' rows. |
| Raster.VerticalCullSound | src/goo/renderer/scanline/SoftwareRenderer.js:1765-1768 | The vertical cull drops only triangles wholly above row 0 or wholly below row height. |
| Raster.SelectEdgesIntended | src/goo/renderer/scanline/SoftwareRenderer.js:1765-1790 | The selection with the long edge's side decided by the vertex that is not on it. Every index it names is below 3. |
| Raster.HorizontalCullSoundIntended | src/goo/renderer/scanline/SoftwareRenderer.js:1765-1790 | With the side decided that way, vertical and horizontal culling drop only triangles wholly off the screen. |
| Raster.SideTestAgrees | src/goo/renderer/scanline/SoftwareRenderer.js:1774-1777 | When one vertex lies strictly above the other two, the source's side test agrees with the intended one. |
| Raster.HorizontalCullSound | src/goo/renderer/scanline/SoftwareRenderer.js:1765-1790 | For such triangles, a triangle the source culls lies wholly off the screen. |
| Raster.FlatTopMisjudged | src/goo/renderer/scanline/SoftwareRenderer.js:1774-1783 | A triangle with a horizontal top edge whose long edge lies left of column 0 is culled, although it reaches onto the screen and the intended test keeps it. |
| Raster.FlatTopAlwaysOccluded | src/goo/renderer/scanline/SoftwareRenderer.js:1793-1827 | Such a triangle is reported occluded whatever the buffer holds. |
| Raster.FlatTopMisjudgedOtherTie | src/goo/renderer/scanline/SoftwareRenderer.js:1774-1783 | Under the opposite Edge tie rule, a triangle with a horizontal top edge v2-v3, v1 between v2 and column 0, and v3 on the screen is culled, although it reaches onto the screen and the intended side test keeps it. |
| Raster.SelectEdges | src/goo/renderer/scanline/SoftwareRenderer.js:1765-1790 | A selection names three edges below 3. |
| Raster.RoundedEdgesSpan | src/goo/renderer/scanline/SoftwareRenderer.js:1806-1856 | After either rounding, the long edge still covers each short edge's rows. |
| Raster.RenderTriangleRaises | src/goo/renderer/scanline/SoftwareRenderer.js:1833-1867 | _renderTriangle only raises stored depths. |
| Raster.TriangleOccludedMonotone | src/goo/renderer/scanline/SoftwareRenderer.js:1793-1827 | Raising the buffer never makes an occluded triangle visible. |
| Raster.SSAABBRect | src/goo/renderer/scanline/SoftwareRenderer.js:903-931 | The sampled rectangle lies on the screen. |
| Raster.SSAABBRectOnScreen | src/goo/renderer/scanline/SoftwareRenderer.js:903-951 | Clamping drops only off-screen pixels. The clamped rectangle is occluded exactly when no on-screen pixel of the rounded rectangle is visible. |
| Raster.RectOccludedMonotone | src/goo/renderer/scanline/SoftwareRenderer.js:786-800 | Raising the buffer never makes an occluded rectangle visible. |
| Raster.PointOccludedMonotone | src/goo/renderer/scanline/SoftwareRenderer.js:1370-1385 | Raising the buffer never makes an occluded point visible. |
| Renderer.SoftwareRenderer.constructor | src/goo/renderer/scanline/SoftwareRenderer.js:22-96 | A zero depth buffer of width * height values on the given screen and camera. |
| Renderer.SoftwareRenderer.ClearDepthData | src/goo/renderer/scanline/SoftwareRenderer.js:162-165 | Every slot becomes 0. |
| Renderer.SoftwareRenderer.FillPixels | src/goo/renderer/scanline/SoftwareRenderer.js:2069-2128 | The new buffer is FillPixelsResult of the old one. |
| Renderer.SoftwareRenderer.IsScanlineOccluded | src/goo/renderer/scanline/SoftwareRenderer.js:2005-2062 | The answer is ScanlineOccluded of the buffer. |
| Renderer.SoftwareRenderer.DrawEdges | src/goo/renderer/scanline/SoftwareRenderer.js:1901-1925 | The new buffer is DrawRows over all of the edge data's rows. |
| Renderer.SoftwareRenderer.IsEdgeOccluded | src/goo/renderer/scanline/SoftwareRenderer.js:1869-1895 | True exactly when every row's span is occluded. |
| Renderer.SoftwareRenderer.CreateEdgesForTriangle | src/goo/renderer/scanline/SoftwareRenderer.js:1745-1791 | Returns the three edges and SelectEdges over them. The selected long edge is LongEdgeIndex. |
| Renderer.SoftwareRenderer.FindLongEdge | src/goo/renderer/scanline/SoftwareRenderer.js:1752-1762 | The scan finds LongEdgeIndex. |
| Renderer.SoftwareRenderer.CullOrSelect | src/goo/renderer/scanline/SoftwareRenderer.js:1765-1790 | The culling tests give SelectEdges. |
| Renderer.SoftwareRenderer.RenderTriangle | src/goo/renderer/scanline/SoftwareRenderer.js:1833-1867 | The new buffer is RenderTriangleResult of the old one. |
| Renderer.SoftwareRenderer.IsRenderedTriangleOccluded | src/goo/renderer/scanline/SoftwareRenderer.js:1793-1827 | The answer is TriangleOccluded of the buffer. |
| Renderer.SoftwareRenderer.IsRowOccluded | src/goo/renderer/scanline/SoftwareRenderer.js:788-797 | True exactly when no pixel of the row segment is visible at depth z. |
| Renderer.SoftwareRenderer.IsRectOccluded | src/goo/renderer/scanline/SoftwareRenderer.js:786-800 | The row loop from maxY down to minY answers RectOccluded: no pixel of the rectangle is visible at depth z. |
| Renderer.SoftwareRenderer.IsBoundingBoxScanlineOccluded | src/goo/renderer/scanline/SoftwareRenderer.js:786-800 | The answer is RectOccluded of the envelope rectangle at its nearest depth. |
| Renderer.SoftwareRenderer.IsSSAABBScanlineOccluded | src/goo/renderer/scanline/SoftwareRenderer.js:903-951 | The answer is RectOccluded of the rounded and clamped rectangle. |
| Renderer.SoftwareRenderer.IsOccluded | src/goo/renderer/scanline/SoftwareRenderer.js:1370-1385 | The answer is PointOccluded: off the screen, or nearer than the stored depth fails. |
| Renderer.SoftwareRenderer.BoundingSphereOcclusionCulling | src/goo/renderer/scanline/SoftwareRenderer.js:805-895 | The verdict is SphereCulled of the buffer. |
| Renderer.SoftwareRenderer.SphereTest | src/goo/renderer/scanline/SoftwareRenderer.js:823-830 | The verdict is SphereCulledAt: a sphere around the camera is kept. |
| Renderer.SoftwareRenderer.ProbeTest | src/goo/renderer/scanline/SoftwareRenderer.js:833-891 | The verdict is ProbesCulled: a sphere reaching in front of the near plane is kept. |
| Renderer.SoftwareRenderer.ProjectProbes | src/goo/renderer/scanline/SoftwareRenderer.js:840-849 | The five probes, projected and mapped to the screen. |
| Renderer.SoftwareRenderer.ProbesOccluded | src/goo/renderer/scanline/SoftwareRenderer.js:874-891 | The chained point tests and the circle test give PixelsOccluded. |
| Renderer.SoftwareRenderer.RenderedBoundingBoxOcclusionTest | src/goo/renderer/scanline/SoftwareRenderer.js:314-331 | The verdict is BoxOccluded over proj * view * world. |
| Renderer.SoftwareRenderer.AllTrianglesOccluded | src/goo/renderer/scanline/SoftwareRenderer.js:324-330 | True exactly when every triangle is occluded. |
| Renderer.SoftwareRenderer.RenderTriangles | src/goo/renderer/scanline/SoftwareRenderer.js:183-185 | The buffer after drawing the triangles in order. |
| Renderer.SoftwareRenderer.Render | src/goo/renderer/scanline/SoftwareRenderer.js:172-187 | The new buffer is RenderResult: the occluders drawn in order over a cleared buffer. Vector4.UNIT_W ends as UnitWAfterRender. |
| Renderer.SoftwareRenderer.PerformOcclusionCulling | src/goo/renderer/scanline/SoftwareRenderer.js:197-224 | The splice loop, with `cull` carried from one entity to the next, leaves KeptEntities. |
| Renderer.SoftwareRenderer.TestBound | src/goo/renderer/scanline/SoftwareRenderer.js:206-216 | An entity with a sphere or box bound gets its own test's verdict. Any other bound leaves `cull` as it was. |
| Renderer.RoundProbesOutward | src/goo/renderer/scanline/SoftwareRenderer.js:852-865 | The left and bottom probes are never moved right or up, nor the right and top probes left or down. Every other coordinate moves by at most half a pixel. |
| Renderer.KeptEntitiesStep | src/goo/renderer/scanline/SoftwareRenderer.js:204-223 | Each entity processed sets `cull` to its own verdict when it has a sphere or box bound and otherwise keeps it. It is then spliced exactly when it may be culled and `cull` holds. |
| Renderer.SpliceStep | src/goo/renderer/scanline/SoftwareRenderer.js:204-223 | One entity of the splice loop: an entity other than NeverOcclusionCull is removed exactly when the carried verdict culls it. The prefix stays KeptEntities of the entities seen, and the suffix stays the unseen ones. |
| Renderer.UnculledIsOrderedFilter | src/goo/renderer/scanline/SoftwareRenderer.js:217-221 | The kept list is an order-preserving subsequence. An index is kept exactly when its verdict is false. |
| Renderer.KeptIsUnculled | src/goo/renderer/scanline/SoftwareRenderer.js:197-224 | The culled list is the order-preserving filter under the loop's verdicts. |
| Renderer.VerdictAt | src/goo/renderer/scanline/SoftwareRenderer.js:204-221 | Entity i is spliced exactly when it may be culled and `cull` holds once the loop has visited it. |
| Renderer.LastTested | src/goo/renderer/scanline/SoftwareRenderer.js:206-216 | The last entity of a list that is tested by a sphere or box, or -1. No later entity is tested. |
| Renderer.CullIsLastTested | src/goo/renderer/scanline/SoftwareRenderer.js:208 | `cull` holds exactly when the last tested entity so far was culled. |
| Renderer.TestedVerdict | src/goo/renderer/scanline/SoftwareRenderer.js:206-221 | A tested entity is spliced exactly when its own test culls it. |
| Renderer.InheritedVerdict | src/goo/renderer/scanline/SoftwareRenderer.js:206-221 | An entity that may be culled with neither a sphere nor a box bound is spliced exactly when the last tested entity before it was culled. |
| Renderer.AlwaysKept | src/goo/renderer/scanline/SoftwareRenderer.js:206 | Entities marked NeverOcclusionCull stay in the list. |
| Renderer.InheritedSplice | src/goo/renderer/scanline/SoftwareRenderer.js:206-221 | A culled sphere or box entity followed by an entity with another bound: the loop removes both, while judging each by its own test keeps the second. |
| Renderer.AlwaysKeptIntended | src/goo/renderer/scanline/SoftwareRenderer.js:206-221 | Judged by their own tests, entities that are never tested stay in the list. |
| Renderer.AgreesWithoutOtherBounds | src/goo/renderer/scanline/SoftwareRenderer.js:206-221 | When every entity that may be culled has a sphere or box bound, the carried `cull` changes nothing. |
| Timeline.FindIndex | out/timelinepack.js:1 | _find: the last index when t is past the last keyframe. Otherwise the found keyframe is before t (or is index 0) and the next one is not. |
| Timeline.FindIsLastBefore | out/timelinepack.js:1 | On ordered keyframes _find returns the last keyframe before t. |
| Timeline.Find | out/timelinepack.js:1 | The bisection loop computes FindIndex. |
| Timeline.PositionFits | out/timelinepack.js:1 | The insertion point of addKeyframe fits between its neighbours. |
| Timeline.InsertKeepsOrder | out/timelinepack.js:1 | An insertion adds exactly the new keyframe at its position. It keeps the keyframes ordered and bounded by the new lastTime. |
| Timeline.AddSorted | out/timelinepack.js:1 | The push/unshift/splice body inserts at InsertPosition, updates lastTime, and preserves order and bounds. |
| Timeline.InsertByTimeSorted | out/timelinepack.js:1 | Inserting into an ordered list keeps it ordered. |
| Timeline.SortByTime | out/timelinepack.js:1 | The sort is ordered and a permutation of its input. |
| Timeline.SampleAt | out/timelinepack.js:1 | An interpolated sample lies between keyframe index and the next, with the earlier one before t and the later not. |
| Timeline.SampleHitsKeyframes | out/timelinepack.js:1 | With distinct times and easings ending at 1, the channel passes through every keyframe's value at its time. |
| Timeline.SampleBetweenNeighbours | out/timelinepack.js:1 | With easings that keep [0, 1], an interpolated value lies between its two keyframes' values. |
| Timeline.Advance | out/timelinepack.js:1 | The cursor passes exactly the keyframes before t and stops at the first one that is not. |
| Timeline.ForwardFiresWindow | out/timelinepack.js:1 | On ordered keyframes, an update forward from t0 to t fires exactly the keyframes in [t0, t), in order. |
| Timeline.SetTimeAgreesWithUpdate | out/timelinepack.js:1 | setTime places the cursor where playing from 0 to t would leave it. |
| Timeline.UpdateValue | out/timelinepack.js:1 | A disabled or empty channel is silent. Otherwise the stored value is reported: the first value up to the first time, the last value from the last time. |
| Timeline.UpdateEvent | out/timelinepack.js:1 | The cursor stays within the keyframes, and the keyframes and enabled flag are kept. |
| Timeline.UpdateFiresInOrder | out/timelinepack.js:1 | Going forward, update fires the keyframes from the cursor that are before t, in index order. After a jump back it fires the rest from the cursor, then from 0 those before t. |
| Timeline.PlaceEvent | out/timelinepack.js:1 | setTime keeps the cursor within the keyframes and fires nothing. |
| Timeline.Interpolate | out/timelinepack.js:1 | The value computation of ValueChannel.update equals SampleAt. |
| Timeline.Fire | out/timelinepack.js:1 | The two loops of EventChannel.update leave the cursor at Advance and fire FiredBy. |
| Timeline.ValueChannel.constructor | out/timelinepack.js:1 | An enabled channel with no keyframes, lastTime 0 and value 0. |
| Timeline.ValueChannel.AddKeyframe | out/timelinepack.js:1 | The keyframe is inserted at InsertPosition and lastTime becomes the maximum. An ordered, bounded channel stays so. |
| Timeline.ValueChannel.Sort | out/timelinepack.js:1 | The keyframes become an ordered permutation, and lastTime is the last keyframe's time. |
| Timeline.ValueChannel.Update | out/timelinepack.js:1 | The new state and the reported outcome are UpdateValue of the old state. |
| Timeline.EventChannel.constructor | out/timelinepack.js:1 | An enabled channel with no callbacks, lastTime and oldTime 0 and the cursor at 0. |
| Timeline.EventChannel.AddCallback | out/timelinepack.js:1 | As AddKeyframe, for callbacks. |
| Timeline.EventChannel.Sort | out/timelinepack.js:1 | As ValueChannel.Sort. |
| Timeline.EventChannel.Update | out/timelinepack.js:1 | The new state and the fired callbacks are UpdateEvent of the old state. |
| Timeline.EventChannel.SetTime | out/timelinepack.js:1 | The new state is PlaceEvent of the old state. |
| Timeline.UpdateChannel | out/timelinepack.js:1 | channel.update on either kind of channel is UpdateState. |
| Timeline.SetChannelTime | out/timelinepack.js:1 | channel.setTime on either kind of channel is PlaceState. |
| Timeline.NextTimeClamps | out/timelinepack.js:1 | A timeline that does not loop moves to time + dt, but never past its duration. |
| Timeline.NextTimeWraps | out/timelinepack.js:1 | A looping timeline past its duration lands in [0, duration), a whole number (at least one) of durations back. |
| Timeline.TimelineComponent.constructor | out/timelinepack.js:1 | No channels, time and duration 0, no loop. |
| Timeline.TimelineComponent.Update | out/timelinepack.js:1 | The time becomes NextTime. If it did not move, nothing is updated. Otherwise every channel's new state and outcome are UpdateState at the new time. |
| Timeline.TimelineComponent.UpdateChannels | out/timelinepack.js:1 | Every channel is updated to t in order, and the component stays valid. |
| Timeline.TimelineComponent.SetTime | out/timelinepack.js:1 | The time is set, and every channel's new state is PlaceState. |
| Timeline.TimelineComponent.PlaceChannels | out/timelinepack.js:1 | Every channel's setTime(t) runs in order. |
| Timeline.ResetAll | out/timelinepack.js:1 | Every component is set to time 0, and its channels and settings are kept. Every channel's new state and outcome are PlaceState at 0. |
| Timeline.AdvanceAll | out/timelinepack.js:1 | Every component's time becomes NextTime by tpf. A component whose time did not move reports nothing and keeps its channels' states. Otherwise every channel's new state and outcome are UpdateState at the new time. |
| Timeline.ResetOne | out/timelinepack.js:1 | One component is set to time 0 and every channel's new state is PlaceState at 0, with every other component and its channels unchanged. |
| Timeline.UpdatedAllIff | out/timelinepack.js:1 | The recursive statement of a component's update holds exactly when every channel was valid and its new state and outcome are UpdateState at t. |
| Timeline.PlacedIff | out/timelinepack.js:1 | The recursive statement of setTime holds exactly when every channel was valid and its new state and outcome are PlaceState at t. |
| Timeline.AdvanceOne | out/timelinepack.js:1 | One component advanced as TimelineComponent.Update states, with every other component and its channels unchanged. |
| Timeline.TimelineSystem.constructor | out/timelinepack.js:1 | Active, unpaused, not entered and no reset requested: the flags start undefined, which reads as false. The time is left unspecified until the first reset. |
| Timeline.TimelineSystem.Play | out/timelinepack.js:1 | Active and unpaused. entered is set unless the system was paused. |
| Timeline.TimelineSystem.Pause | out/timelinepack.js:1 | Passive and paused, with nothing else changed. |
| Timeline.TimelineSystem.Stop | out/timelinepack.js:1 | Active, unpaused and with a reset requested. |
| Timeline.TimelineSystem.Process | out/timelinepack.js:1 | A requested reset clears the request, sets the system time to 0, makes the system passive and does what ResetAll states. Otherwise the system is unchanged and every component advances as AdvanceAll states. |

## Left out

- **Colour buffer.** The debug colour buffer (`_colorData`, `copyDepthToColor`, `getColorData`, `calculateDifference`, the colour writes in the scan loops, `_renderTestTriangles`) and the `console.log` calls (in the constructor, on the w < near exit of `_createTrianglesForBoundingBox` and in the span fill) are output for debugging and do not affect any depth value or verdict.
- **Sphere maths.** The sphere test's perspective compensation (`distance * tan(asin(radius / distance))`) and `_isPythagorasCircleScanlineOccluded` need sqrt, asin and tan. They are parameters of the model (`compensate`, `circleOccluded`). The two early exits are modelled exactly, the first through a squared comparison.
- **Unused box and clamp code.** `_boundingBoxOcclusionCulling`, `_clipBoundingBox` and `_isBezierScanlineOccluded` are not modelled, because their calls are commented out in the source. `_clampToScreen` is not modelled, because it changes only its own parameters. `_cohenSutherlandClipBox` is modelled on its own.
- **Helper classes.** Edge.js, Triangle.js, Vector4.js, Matrix4x4.js, BoundingSphere.js and BoundingBox.js are not part of this model. Matrix4x4 is taken as sixteen reals in column-major order with the usual product. The three lines below state what the model assumes of Edge.js.
- **Geometry.MakeEdge**: assumed: an Edge puts the endpoint with the smaller y first and takes its depth from w. On equal y it puts the first vertex first. The Findings row on the side test holds under either tie rule: FlatTopMisjudged covers this rule and FlatTopMisjudgedOtherTie the opposite one.
- **Geometry.RoundOccluderEdge**, **Geometry.RoundOccludeeEdge**: assumed: occluders round every coordinate to nearest. Occludees take the ceiling of y0, the floor of y1 and x rounded to nearest.
- **Geometry.Recip**: assumed: invertZ and the other reciprocals give 0 for a zero depth. JavaScript's 1 / 0 is Infinity, which exact reals cannot hold.
- **Numbers.** Arithmetic is exact real arithmetic. IEEE rounding, `Float32Array` storage, NaN and the infinities other than the envelope's initial values are not modelled. A one-pixel span uses increment 0 where the source computes 0/0, which it never reads.
- **Near plane.** `camera.near` is assumed positive where the camera is used. The camera's matrices are inputs.
- **Renderer.SoftwareRenderer.BoundingSphereOcclusionCulling**: the verdict is stated relative to the oracle parameters, not to the real sphere maths.
- **Timeline callbacks.** Update callbacks, keyframe callbacks and easing functions are foreign calls. Callbacks become outcome traces: the indices fired, or the value reported. Easing is a parameter `ease(name, x)`.
- **Timeline pieces not modelled.** `TimelineComponentHandler` (loading from JSON), `TWEEN.removeAll`, `addChannel`, `getValues`, the entity-transform tweeners and `_prepare`/`_create` are not modelled. They build or read channels but do not take part in update or setTime.
- **Timeline.ValueChannel.Update**: assumes the channel was built with `callbackUpdate`, and always reports `Notified`. The source's constructor makes the option optional, but `update` calls it unconditionally. A channel built without it stores its value and then throws a TypeError, which also stops `TimelineComponent.update` before the remaining channels. Every channel the handler builds passes a `callbackUpdate`.
- **Timeline.ValueChannel.Sort**, **Timeline.EventChannel.Sort**: require a non-empty keyframe list. The source reads the last keyframe's time and throws a TypeError on an empty list. The handler sorts only after retiming an existing keyframe.
- **Sorting.** `sort` is modelled as an insertion sort by time. The contract states only that the result is ordered and a permutation, so JavaScript's sort stability is not claimed.
- **Timeline.TimelineComponent.Update**: requires `!(loop && duration == 0)`. The source would compute `x % 0`, which is NaN. It also requires the channel objects to be distinct and not the component itself, which the source's usage satisfies.
- **Timeline.TimelineSystem.Process**: requires `Separate(comps)`: no timeline is listed twice and no channel object is shared between timelines. It also requires that the system is not one of the channel objects. The source accepts a repeated timeline and advances it once per listing; the model does not capture that. The reset branch walks the entity list and the update branch walks the active entities; the model takes both as one list.
- **Timeline.TimelineSystem.constructor**: `passive` comes from the System base class, and System.js is not part of this model. The model starts it false, as an undefined flag reads. The source leaves `time` undefined until the first reset; the model leaves it unspecified.
- **BoxClip.CohenSutherlandClipBox**: when no corner is on the screen, coverage of the clipped endpoints is not stated. A top or bottom cut then sets minY or maxY to a border while the other stays at its initial infinity, so the envelope is not a rectangle around the cut.
- **Context files.** SoundSystem.js, ArrowsAction.js, LogMessageAction.js and Matrix2x2.js are context and are not modelled.

## Findings

| source | as written | input that shows it | evidently intended | confidence | as-written member | corrected member |
|---|---|---|---|---|---|---|
| src/goo/renderer/scanline/SoftwareRenderer.js:208-221 | `var cull;` is hoisted to the function, so it is not reset per entity. An entity that may be culled but has neither a sphere nor a box bound inherits the verdict of the last tested entity. | A culled entity with a sphere bound followed by an entity with another bound: both are spliced. | Each entity judged by its own test (`IntendedKept`), and an entity without a sphere or box bound kept. | not executed | Renderer.InheritedSplice | Renderer.AlwaysKeptIntended |
| src/goo/renderer/scanline/SoftwareRenderer.js:1774-1783 | The long edge's side is decided by comparing its x1 with the short edges' x1. When the top edge is horizontal, a short edge ends at the same vertex as the long edge, and the side test can pick the wrong side. | The triangle (-1, 0), (-0.5, 10), (5, 0) on a 64 x 64 screen is culled as off screen, although it covers pixels of row 0. This input assumes that an Edge puts its first vertex first on equal y. Under the opposite rule, the relabelled triangle (-0.5, 10), (-1, 0), (5, 0) shows the same (FlatTopMisjudgedOtherTie). | Decide the side by the vertex that is not on the long edge (`SelectEdgesIntended`), so that only triangles wholly off screen are culled. | not executed | Raster.FlatTopMisjudged | Raster.HorizontalCullSoundIntended |
