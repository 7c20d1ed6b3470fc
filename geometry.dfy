/**
 * The coordinate arithmetic of the avatar editor: fitting the uploaded image
 * into the square edit canvas, placing the flag marker, clamping a dragged
 * marker to the canvas, mapping pointer positions from the screen into canvas
 * units, the inclusive hit test, and the uniform scaling from the 500-unit
 * edit canvas to the export canvas. Arithmetic is on exact reals.
 */
module Geometry {

  /** The logical width and height of the (square) edit canvas. */
  const EditSize: real := 500.0
  /** Gap between the marker's bottom edge and the canvas bottom when the flag first loads. */
  const LoadMargin: real := 15.0
  /** The same gap after a new image is uploaded: a different constant, kept as is. */
  const UploadMargin: real := 25.0

  /** A rectangle as passed to drawImage: the marker's `LogoState` and the fitted image. */
  datatype Rect = Rect(x: real, y: real, width: real, height: real)

  /** Pixel dimensions of a decoded image. */
  datatype Size = Size(width: nat, height: nat)

  datatype Point = Point(x: real, y: real)

  /** JavaScript's Math.min and Math.max on two numbers (NaN aside). */
  function Min(a: real, b: real): (m: real) { if a <= b then a else b }
  function Max(a: real, b: real): (m: real) { if a >= b then a else b }

  function Abs(a: real): (m: real) { if a < 0.0 then -a else a }

  // ---------------------------------------------------------------------
  // Fitting the base image into the edit canvas (draw effect)
  // ---------------------------------------------------------------------

  /** The uniform scale of the draw effect: min(500 / w, 500 / h). A zero
      side makes its quotient Infinity in JavaScript, so the minimum is the
      other quotient. It is the largest scale at which the image still fits
      the canvas on both axes, and on at least one axis it fills the canvas
      exactly. A 0 x 0 image (NaN) is excluded. */
  function FitScale(w: nat, h: nat): (s: real)
    requires w > 0 || h > 0
    ensures s > 0.0
    ensures s * (w as real) <= EditSize && s * (h as real) <= EditSize
    ensures s * (w as real) == EditSize || s * (h as real) == EditSize
  {
    if w == 0 then EditSize / (h as real)
    else if h == 0 then EditSize / (w as real)
    else Min(EditSize / (w as real), EditSize / (h as real))
  }

  /** No larger uniform scale fits the image into the canvas. */
  lemma FitScaleIsLargest(w: nat, h: nat, t: real)
    requires w > 0 || h > 0
    requires t * (w as real) <= EditSize && t * (h as real) <= EditSize
    ensures t <= FitScale(w, h)
  {
  }

  /** The rectangle the base image is drawn into on the edit canvas: scaled
      by FitScale and centred. It lies inside the canvas, keeps the image's
      aspect ratio, touches two opposite canvas edges, and leaves equal
      margins on both sides of each axis. An image with one zero side gets
      a degenerate rectangle: 0 x 500 at x = 250, or 500 x 0 at y = 250. */
  function FitBase(w: nat, h: nat): (r: Rect)
    requires w > 0 || h > 0
    ensures 0.0 <= r.x && 0.0 <= r.y
    ensures r.x + r.width <= EditSize && r.y + r.height <= EditSize
    ensures r.x + r.width + r.x == EditSize && r.y + r.height + r.y == EditSize
    ensures r.width * (h as real) == r.height * (w as real)
    ensures r.width == EditSize || r.height == EditSize
  {
    var scale := FitScale(w, h);
    var scaledWidth := (w as real) * scale;
    var scaledHeight := (h as real) * scale;
    Rect((EditSize - scaledWidth) / 2.0, (EditSize - scaledHeight) / 2.0, scaledWidth, scaledHeight)
  }

  /** FitBase is the only rectangle with its contract's properties: any
      rectangle inside the canvas, centred on both axes, with the image's
      aspect ratio and filling the canvas on one axis is the drawn one. */
  lemma FitBaseUnique(w: nat, h: nat, r: Rect)
    requires w > 0 || h > 0
    requires r.x + r.width <= EditSize && r.y + r.height <= EditSize
    requires 0.0 <= r.x && 0.0 <= r.y
    requires r.x + r.width + r.x == EditSize && r.y + r.height + r.y == EditSize
    requires r.width * (h as real) == r.height * (w as real)
    requires r.width == EditSize || r.height == EditSize
    ensures r == FitBase(w, h)
  {
  }

  // ---------------------------------------------------------------------
  // Marker placement
  // ---------------------------------------------------------------------

  /** Where the flag goes when its image loads: scaled to the canvas WIDTH
      only (scale 500 / iw on both axes), centred horizontally, its bottom
      edge LoadMargin above the canvas bottom. A marker taller than
      500 - LoadMargin ends up with a negative y. */
  function InitialPlacement(iw: nat, ih: nat): (r: Rect)
    requires iw > 0
    ensures r.width == EditSize
    ensures r.height * (iw as real) == EditSize * (ih as real)
    ensures r.x == 0.0 && r.x + r.width + r.x == EditSize
    ensures r.y + r.height + LoadMargin == EditSize
  {
    var scale1 := EditSize / (iw as real);
    var w1 := (iw as real) * scale1;
    var h1 := (ih as real) * scale1;
    Rect((EditSize - w1) / 2.0, EditSize - h1 - LoadMargin, w1, h1)
  }

  /** The marker after a new image is uploaded: same size, centred
      horizontally, its bottom edge UploadMargin above the canvas bottom. */
  function Recentred(p: Rect): (r: Rect)
    ensures r.width == p.width && r.height == p.height
    ensures r.x + r.width + r.x == EditSize
    ensures r.y + r.height + UploadMargin == EditSize
  {
    p.(x := (EditSize - p.width) / 2.0, y := EditSize - p.height - UploadMargin)
  }

  /** Re-centring depends only on the marker's size, never on where it was. */
  lemma RecentredForgetsPosition(p: Rect, q: Rect)
    requires p.width == q.width && p.height == q.height
    ensures Recentred(p) == Recentred(q)
  {
  }

  /** Re-centring twice is re-centring once. */
  lemma RecentredIdempotent(p: Rect)
    ensures Recentred(Recentred(p)) == Recentred(p)
  {
  }

  // ---------------------------------------------------------------------
  // Clamping a dragged marker
  // ---------------------------------------------------------------------

  /** One axis of the mouse-move clamp: max(0, min(v, extent - size)).
      The result is never negative; it stays within [0, extent - size] when
      the marker fits, and is 0 when it does not; it equals the proposal
      exactly when the proposal is already admissible. */
  function ClampAxis(v: real, size: real, extent: real): (r: real)
    ensures r >= 0.0
    ensures size <= extent ==> r <= extent - size
    ensures size >= extent ==> r == 0.0
    ensures r == v <==> v == 0.0 || 0.0 <= v <= extent - size
  {
    Max(0.0, Min(v, extent - size))
  }

  /** When the marker fits, the clamp is the nearest admissible position:
      no point of [0, extent - size] is closer to the proposal. */
  lemma ClampAxisIsNearest(v: real, size: real, extent: real, u: real)
    requires size <= extent && 0.0 <= u <= extent - size
    ensures Abs(ClampAxis(v, size, extent) - v) <= Abs(u - v)
  {
  }

  // ---------------------------------------------------------------------
  // Hit test
  // ---------------------------------------------------------------------

  /** The closed bounding box of `pos` contains (x, y); edges count. A hit
      is a point whose offset from the top-left corner is within the box's
      size on both axes, so only a box of non-negative size has hits. */
  predicate IsHit(pos: Rect, x: real, y: real)
    ensures IsHit(pos, x, y) <==> 0.0 <= x - pos.x <= pos.width && 0.0 <= y - pos.y <= pos.height
    ensures IsHit(pos, x, y) ==> pos.width >= 0.0 && pos.height >= 0.0
  {
    x >= pos.x && x <= pos.x + pos.width && y >= pos.y && y <= pos.y + pos.height
  }

  /** All four corners of a box with non-negative size are hits. */
  lemma CornersAreHits(pos: Rect)
    requires pos.width >= 0.0 && pos.height >= 0.0
    ensures IsHit(pos, pos.x, pos.y)
    ensures IsHit(pos, pos.x + pos.width, pos.y)
    ensures IsHit(pos, pos.x, pos.y + pos.height)
    ensures IsHit(pos, pos.x + pos.width, pos.y + pos.height)
  {
  }

  // ---------------------------------------------------------------------
  // Pointer position: screen -> canvas units
  // ---------------------------------------------------------------------

  /** A mouse event as the handler sees it: client coordinates and the
      canvas element's bounding client rectangle at that moment. */
  datatype Pointer = Pointer(clientX: real, clientY: real, box: Rect)

  /** The canvas is laid out on screen with a positive size, which it has
      whenever it can receive a mouse event. */
  predicate OnScreen(e: Pointer) { e.box.width > 0.0 && e.box.height > 0.0 }

  /** getMousePos: the client offset inside the bounding box, multiplied by
      the ratio of the canvas's logical size to its rendered size. The
      rendered box maps onto [0, canvasW] x [0, canvasH], edges to edges. */
  function CanvasPos(e: Pointer, canvasW: real, canvasH: real): (p: Point)
    requires OnScreen(e) && canvasW > 0.0 && canvasH > 0.0
    ensures e.box.x <= e.clientX <= e.box.x + e.box.width <==> 0.0 <= p.x <= canvasW
    ensures e.box.y <= e.clientY <= e.box.y + e.box.height <==> 0.0 <= p.y <= canvasH
  {
    var scaleX := canvasW / e.box.width;
    var scaleY := canvasH / e.box.height;
    Point((e.clientX - e.box.x) * scaleX, (e.clientY - e.box.y) * scaleY)
  }

  /** A canvas displayed at its logical size at the origin maps client
      coordinates to themselves. */
  lemma ActualSizeDisplay(cx: real, cy: real)
    ensures CanvasPos(Pointer(cx, cy, Rect(0.0, 0.0, EditSize, EditSize)), EditSize, EditSize) == Point(cx, cy)
  {
  }

  /** The inverse map: where on screen a canvas point is displayed. */
  function ClientPos(e: Pointer, p: Point, canvasW: real, canvasH: real): (c: Point)
    requires OnScreen(e) && canvasW > 0.0 && canvasH > 0.0
  {
    Point(e.box.x + p.x * (e.box.width / canvasW), e.box.y + p.y * (e.box.height / canvasH))
  }

  /** A canvas rectangle carried into client coordinates by the inverse of
      getMousePos's map, which spans the whole bounding client rectangle
      (CSS border included). */
  function ScreenRect(e: Pointer, r: Rect, canvasW: real, canvasH: real): (q: Rect)
    requires OnScreen(e) && canvasW > 0.0 && canvasH > 0.0
  {
    var kx := e.box.width / canvasW;
    var ky := e.box.height / canvasH;
    Rect(e.box.x + r.x * kx, e.box.y + r.y * ky, r.width * kx, r.height * ky)
  }

  /** The hit test in canvas units agrees with client coordinates: a press
      hits the flag exactly when the pointer is on the flag as the inverse
      of getMousePos's map places it in the bounding client rectangle. */
  lemma HitOnScreen(e: Pointer, r: Rect, canvasW: real, canvasH: real)
    requires OnScreen(e) && canvasW > 0.0 && canvasH > 0.0
    ensures var p := CanvasPos(e, canvasW, canvasH);
            IsHit(r, p.x, p.y) <==> IsHit(ScreenRect(e, r, canvasW, canvasH), e.clientX, e.clientY)
  {
    var p := CanvasPos(e, canvasW, canvasH);
    var q := ScreenRect(e, r, canvasW, canvasH);
    AxisHitOnScreen(e.clientX, e.box.x, e.box.width, canvasW, r.x, r.width, p.x, q.x, q.width);
    AxisHitOnScreen(e.clientY, e.box.y, e.box.height, canvasH, r.y, r.height, p.y, q.y, q.height);
    SameHit(r, q, p.x, p.y, e.clientX, e.clientY);
  }

  /** Two boxes with corresponding intervals on both axes have corresponding hits. */
  lemma SameHit(r: Rect, q: Rect, px: real, py: real, cx: real, cy: real)
    requires r.x <= px <= r.x + r.width <==> q.x <= cx <= q.x + q.width
    requires r.y <= py <= r.y + r.height <==> q.y <= cy <= q.y + q.height
    ensures IsHit(r, px, py) <==> IsHit(q, cx, cy)
  {
  }

  /** One axis of HitOnScreen: the canvas coordinate `pc` of client
      coordinate `c` lies in [a, a + size] exactly when `c` lies in that
      interval's image [qa, qa + qs] on screen. */
  lemma AxisHitOnScreen(c: real, lo: real, len: real, extent: real, a: real, size: real, pc: real, qa: real, qs: real)
    requires len > 0.0 && extent > 0.0
    requires pc == (c - lo) * (extent / len)
    requires qa == lo + a * (len / extent) && qs == size * (len / extent)
    ensures a <= pc <= a + size <==> qa <= c <= qa + qs
  {
    var k := len / extent;
    assert k > 0.0;
    assert pc * k == c - lo by {
      assert (extent / len) * k == 1.0;
      calc {
        pc * k;
        (c - lo) * ((extent / len) * k);
      }
    }
    MulMonotone(a, pc, k);
    MulMonotone(pc, a + size, k);
  }

  /** Multiplying by a positive factor keeps the order. */
  lemma MulMonotone(a: real, b: real, k: real)
    requires k > 0.0
    ensures a <= b <==> a * k <= b * k
  {
    if a <= b {
      assert (b - a) * k >= 0.0;
    } else {
      assert (a - b) * k > 0.0;
    }
  }

  /** Converting the pointer to canvas units and back gives the pointer. */
  lemma ClientOfCanvasPos(e: Pointer, canvasW: real, canvasH: real)
    requires OnScreen(e) && canvasW > 0.0 && canvasH > 0.0
    ensures ClientPos(e, CanvasPos(e, canvasW, canvasH), canvasW, canvasH) == Point(e.clientX, e.clientY)
  {
  }

  /** Every canvas point is reached by the pointer displayed over it. */
  lemma CanvasOfClientPos(e: Pointer, p: Point, canvasW: real, canvasH: real)
    requires OnScreen(e) && canvasW > 0.0 && canvasH > 0.0
    ensures var c := ClientPos(e, p, canvasW, canvasH);
            CanvasPos(Pointer(c.x, c.y, e.box), canvasW, canvasH) == p
  {
  }

  // ---------------------------------------------------------------------
  // Export
  // ---------------------------------------------------------------------

  /** The download's scale factor, originalSize.width / 500: the 500 edit
      units of the canvas width become exactly `width` export pixels. The
      image height plays no part. */
  function ExportScale(width: nat): (s: real)
    ensures s * EditSize == width as real
    ensures s >= 0.0
  {
    (width as real) / EditSize
  }

  /** The marker rectangle on the export canvas: x, y, width and height all
      multiplied by the one factor `s`. So the aspect ratio is kept, and the
      right and bottom edges land where the edit-canvas edges scale to. */
  function Scaled(r: Rect, s: real): (q: Rect)
    ensures q.width * r.height == q.height * r.width
    ensures q.x + q.width == (r.x + r.width) * s && q.y + q.height == (r.y + r.height) * s
  {
    Rect(r.x * s, r.y * s, r.width * s, r.height * s)
  }

  /** A uniform positive scale is undone by its reciprocal. */
  lemma ScaledInverse(r: Rect, s: real)
    requires s > 0.0
    ensures Scaled(Scaled(r, s), 1.0 / s) == r
  {
  }

  /** A uniform positive scale commutes with the hit test: a point is on the
      edit-canvas marker exactly when its scaled image is on the exported
      marker. */
  lemma ScaledKeepsHits(r: Rect, s: real, x: real, y: real)
    requires s > 0.0
    ensures IsHit(r, x, y) <==> IsHit(Scaled(r, s), x * s, y * s)
  {
    // Spelled out so that the proof does not depend on the solver's seed.
    var q := Scaled(r, s);
    MulMonotone(r.x, x, s);
    MulMonotone(x, r.x + r.width, s);
    MulMonotone(r.y, y, s);
    MulMonotone(y, r.y + r.height, s);
    SameHit(r, q, x, y, x * s, y * s);
  }

  /** The edit canvas drawn for a square image with side w is exactly the
      export canvas scaled down: the fitted image scaled by ExportScale(w)
      is the w x w rectangle at the origin where the export draws it. */
  lemma SquareExportMatchesEdit(w: nat)
    requires w > 0
    ensures Scaled(FitBase(w, w), ExportScale(w)) == Rect(0.0, 0.0, w as real, w as real)
  {
  }

  /** Conversely, the two agree only for a square image: if the fitted edit
      rectangle scaled by the export factor is the w x h rectangle the
      export draws, then w == h. */
  lemma ExportMatchesEditOnlyIfSquare(w: nat, h: nat)
    requires w > 0 && h > 0
    requires Scaled(FitBase(w, h), ExportScale(w)) == Rect(0.0, 0.0, w as real, h as real)
    ensures w == h
  {
  }

  /** For example, for a non-square image the two disagree: a 1000 x 500 image is shown
      letterboxed at y = 125 on the edit canvas, which maps to y = 250 on the
      export, where the image is drawn at y = 0. */
  lemma WideExportDiffersFromEdit()
    ensures FitBase(1000, 500) == Rect(0.0, 125.0, 500.0, 250.0)
    ensures Scaled(FitBase(1000, 500), ExportScale(1000)) == Rect(0.0, 250.0, 1000.0, 500.0)
    ensures Scaled(FitBase(1000, 500), ExportScale(1000)) != Rect(0.0, 0.0, 1000.0, 500.0)
  {
  }
}
