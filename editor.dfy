/**
 * The state of the `App` component and its event handlers: the flag marker's
 * placement, the drag gesture, and whether the flag and a base image have
 * been loaded. Each handler is a method that replaces fields the way the
 * component's state setters do; React's scheduling and re-rendering are
 * not modelled, a state update takes effect at once.
 */
module Editor {
  import opened Wrappers
  import opened Geometry
  import opened Upload

  datatype Target = NoTarget | Logo1

  /** The component's `DragState` record. */
  datatype DragState = DragState(isDragging: bool, target: Target, offsetX: real, offsetY: real)

  /** The reset drag state: not dragging, no target, zero offsets. */
  const Idle: DragState := DragState(false, NoTarget, 0.0, 0.0)

  /** The handlers only ever build the idle state or a drag of the flag. */
  predicate WellFormedDrag(d: DragState)
  {
    d == Idle || (d.isDragging && d.target == Logo1)
  }

  /** The rectangles the draw effect passes to drawImage on the edit canvas:
      the base image's (None: the grey placeholder is drawn instead) and the
      marker's (None: no flag yet). */
  datatype Layout = Layout(base: Option<Rect>, marker: Option<Rect>)

  /** What the download draws: a canvas of the image's own size, the base
      image's rectangle on it, and the scaled marker's rectangle. */
  datatype ExportPlan = ExportPlan(canvas: Size, base: Rect, marker: Option<Rect>)

  class App {
    /** A base image has been decoded (`baseImage` is non-null). */
    var baseImageLoaded: bool
    /** The base image's pixel size, kept for the export. */
    var originalSize: Size
    /** The flag image has been loaded (`logo1` is non-null). */
    var logo1Loaded: bool
    /** The flag's placement in edit-canvas units. */
    var logo1Pos: Rect
    var dragState: DragState

    /** What every handler keeps. The flag spans the whole canvas width, so
        once loaded it sits at x = 0 for good; the clamp bounds on y are NOT
        kept: the initial and re-centred placements of a tall flag have y < 0. */
    ghost predicate Valid()
      reads this
    {
      && WellFormedDrag(dragState)
      && (dragState.isDragging ==> logo1Loaded)
      && (logo1Loaded ==> logo1Pos.width == EditSize && logo1Pos.x == 0.0 && logo1Pos.height >= 0.0)
      && (!baseImageLoaded ==> originalSize == Size(0, 0))
    }

    /** The component's initial state. */
    constructor ()
      ensures Valid()
      ensures !baseImageLoaded && originalSize == Size(0, 0)
      ensures !logo1Loaded && logo1Pos == Rect(10.0, 500.0, 0.0, 0.0)
      ensures dragState == Idle
    {
      baseImageLoaded := false;
      originalSize := Size(0, 0);
      logo1Loaded := false;
      logo1Pos := Rect(10.0, 500.0, 0.0, 0.0);
      dragState := Idle;
    }

    /** The flag image's onload: does nothing if the edit canvas is not
        mounted; otherwise records the flag and places it with
        InitialPlacement, replacing all four fields of the placement. */
    method OnFlagLoad(canvasMounted: bool, iw: nat, ih: nat)
      requires Valid()
      requires iw > 0
      modifies this`logo1Loaded, this`logo1Pos
      ensures Valid()
      ensures !canvasMounted ==> logo1Loaded == old(logo1Loaded) && logo1Pos == old(logo1Pos)
      ensures canvasMounted ==> logo1Loaded && logo1Pos == InitialPlacement(iw, ih)
    {
      if !canvasMounted {
        return;
      }
      logo1Loaded := true;
      logo1Pos := InitialPlacement(iw, ih);
    }

    /** processFile followed by its image's onload. A file whose type is not
        an image is refused and nothing changes. Otherwise the decoded size
        and image are stored, and the flag is re-centred if the handler saw
        it loaded: `markerSeen` is the value of `logo1` the handler had
        captured, which may lag behind `logo1Loaded`. Since `logo1` is never
        reset to null, a captured flag is still loaded. */
    method ProcessFile(fileType: string, markerSeen: bool, decoded: Size) returns (accepted: bool)
      requires Valid()
      requires markerSeen ==> logo1Loaded
      modifies this`baseImageLoaded, this`originalSize, this`logo1Pos
      ensures Valid()
      ensures accepted == IsImageType(fileType)
      ensures !accepted ==> baseImageLoaded == old(baseImageLoaded) && originalSize == old(originalSize) && logo1Pos == old(logo1Pos)
      ensures accepted ==> baseImageLoaded && originalSize == decoded
      ensures accepted ==> logo1Pos == if markerSeen then Recentred(old(logo1Pos)) else old(logo1Pos)
    {
      if !IsImageType(fileType) {
        return false;
      }
      originalSize := decoded;
      baseImageLoaded := true;
      if markerSeen {
        logo1Pos := Recentred(logo1Pos);
      }
      return true;
    }

    /** handleMouseDown: start dragging the flag, remembering the grab
        offset, exactly when the flag is loaded and the pointer is on its
        closed bounding box; on any other press reset to Idle, cancelling
        a drag that was still active. */
    method MouseDown(e: Pointer)
      requires Valid() && OnScreen(e)
      modifies this`dragState
      ensures Valid()
      ensures var p := CanvasPos(e, EditSize, EditSize);
              dragState == if logo1Loaded && IsHit(logo1Pos, p.x, p.y)
                           then DragState(true, Logo1, p.x - logo1Pos.x, p.y - logo1Pos.y)
                           else Idle
    ensures dragState.isDragging ==> 0.0 <= dragState.offsetX <= logo1Pos.width && 0.0 <= dragState.offsetY <= logo1Pos.height
    {
      var p := CanvasPos(e, EditSize, EditSize);
      var newDragState := Idle;
      if logo1Loaded && IsHit(logo1Pos, p.x, p.y) {
        newDragState := DragState(true, Logo1, p.x - logo1Pos.x, p.y - logo1Pos.y);
      }
      dragState := newDragState;
    }

    /** handleMouseMove: while dragging the flag, move it to the pointer
        less the grab offset, clamped into the canvas on each axis. The size
        never changes, and the placement is left alone (`updated` is false:
        no state update, no redraw) when not dragging, when the canvas is
        not mounted, when the target is not the flag, or when the clamped
        position is the current one. */
    method MouseMove(canvasMounted: bool, e: Pointer) returns (updated: bool)
      requires Valid() && OnScreen(e)
      modifies this`logo1Pos
      ensures Valid()
      ensures var p := CanvasPos(e, EditSize, EditSize);
              var nx := ClampAxis(p.x - dragState.offsetX, old(logo1Pos).width, EditSize);
              var ny := ClampAxis(p.y - dragState.offsetY, old(logo1Pos).height, EditSize);
              && (updated <==> dragState.isDragging && canvasMounted && dragState.target == Logo1
                               && (nx != old(logo1Pos).x || ny != old(logo1Pos).y))
              && logo1Pos == if updated then old(logo1Pos).(x := nx, y := ny) else old(logo1Pos)
    {
      if !dragState.isDragging || !canvasMounted {
        return false;
      }
      var p := CanvasPos(e, EditSize, EditSize);
      var newX := p.x - dragState.offsetX;
      var newY := p.y - dragState.offsetY;
      updated := false;
      if dragState.target == Logo1 {
        var targetNewX := ClampAxis(newX, logo1Pos.width, EditSize);
        var targetNewY := ClampAxis(newY, logo1Pos.height, EditSize);
        if targetNewX != logo1Pos.x || targetNewY != logo1Pos.y {
          logo1Pos := logo1Pos.(x := targetNewX, y := targetNewY);
          updated := true;
        }
      }
    }

    /** handleMouseUp, also the canvas's mouse-leave handler: from any state
        the drag is reset to Idle. */
    method MouseUp()
      requires Valid()
      modifies this`dragState
      ensures Valid()
      ensures dragState == Idle
    {
      dragState := Idle;
    }

    /** The drawImage rectangles of the draw effect, or None when a canvas
        is not mounted or has no 2D context and the pass is skipped. The base image is the one
        whose size `originalSize` recorded, fitted and centred by FitBase;
        the flag is drawn at its placement. */
    method Draw(canvasesMounted: bool) returns (frame: Option<Layout>)
      requires baseImageLoaded ==> originalSize.width > 0 || originalSize.height > 0
      ensures frame.None? <==> !canvasesMounted
      ensures frame.Some? ==> frame.value.base == (if baseImageLoaded then Some(FitBase(originalSize.width, originalSize.height)) else None)
      ensures frame.Some? ==> frame.value.marker == (if logo1Loaded then Some(logo1Pos) else None)
    {
      if !canvasesMounted {
        return None;
      }
      var base := None;
      if baseImageLoaded {
        base := Some(FitBase(originalSize.width, originalSize.height));
      }
      var marker := if logo1Loaded then Some(logo1Pos) else None;
      return Some(Layout(base, marker));
    }

    /** handleDownload: refused (None) without a base image or when the
        recorded width is 0. Otherwise the export canvas has exactly the
        image's size, the image is drawn unfitted over all of it, and the
        flag's x, y, width and height are multiplied by the one factor
        ExportScale(originalSize.width). */
    method Download() returns (plan: Option<ExportPlan>)
      ensures plan.None? <==> !baseImageLoaded || originalSize.width == 0
      ensures plan.Some? ==> plan.value.canvas == originalSize
      ensures plan.Some? ==> plan.value.base == Rect(0.0, 0.0, originalSize.width as real, originalSize.height as real)
      ensures plan.Some? ==> plan.value.marker == (if logo1Loaded then Some(Scaled(logo1Pos, ExportScale(originalSize.width))) else None)
    {
      if !baseImageLoaded || originalSize.width == 0 {
        return None;
      }
      var scale := ExportScale(originalSize.width);
      var base := Rect(0.0, 0.0, originalSize.width as real, originalSize.height as real);
      var marker := if logo1Loaded then Some(Scaled(logo1Pos, scale)) else None;
      return Some(ExportPlan(originalSize, base, marker));
    }
  }

  /** Pressing the flag and moving to the very same point repositions it
      only if its y was not admissible (neither 0 nor within
      0 <= y <= 500 - height), and then snaps y back into the canvas. */
  method GrabAndHold(app: App, e: Pointer) returns (updated: bool)
    requires app.Valid() && OnScreen(e) && app.logo1Loaded
    requires var p := CanvasPos(e, EditSize, EditSize); IsHit(app.logo1Pos, p.x, p.y)
    modifies app
    ensures app.Valid() && app.dragState.isDragging
    ensures updated <==> !(old(app.logo1Pos.y) == 0.0 || 0.0 <= old(app.logo1Pos.y) <= EditSize - app.logo1Pos.height)
    ensures app.logo1Pos == old(app.logo1Pos).(y := ClampAxis(old(app.logo1Pos.y), app.logo1Pos.height, EditSize))
  {
    app.MouseDown(e);
    updated := app.MouseMove(true, e);
  }

  /** A drag from start to release: a 250 x 100 flag on the 500-unit canvas
      (displayed at its logical size) is placed 500 x 200 at (0, 285);
      pressed at (50, 300) and dragged to (490, 490), it ends at x = 0, since
      it is as wide as the canvas, and y = 300, the lowest admissible y. */
  method DragScenario()
  {
    var app := new App();
    FlagPlacementExample();
    app.OnFlagLoad(true, 250, 100);
    assert app.logo1Pos == Rect(0.0, 285.0, 500.0, 200.0);
    PressFlag(app);
    DragToBottom(app);
    app.MouseUp();
    assert app.dragState == Idle;
  }

  /** The press of DragScenario: (50, 300) is on the flag, 50 right of and
      15 below its top-left corner. */
  method PressFlag(app: App)
    requires app.Valid() && app.logo1Loaded && app.logo1Pos == Rect(0.0, 285.0, 500.0, 200.0)
    modifies app
    ensures app.Valid() && app.logo1Pos == old(app.logo1Pos)
    ensures app.dragState == DragState(true, Logo1, 50.0, 15.0)
  {
    ActualSizeDisplay(50.0, 300.0);
    app.MouseDown(Pointer(50.0, 300.0, Rect(0.0, 0.0, EditSize, EditSize)));
  }

  /** The move of DragScenario: at (490, 490) the proposal is (440, 475);
      x clamps to 0 and y to 300. */
  method DragToBottom(app: App)
    requires app.Valid() && app.logo1Pos == Rect(0.0, 285.0, 500.0, 200.0)
    requires app.dragState == DragState(true, Logo1, 50.0, 15.0)
    modifies app
    ensures app.Valid() && app.dragState == old(app.dragState)
    ensures app.logo1Pos == Rect(0.0, 300.0, 500.0, 200.0)
  {
    ActualSizeDisplay(490.0, 490.0);
    var updated := app.MouseMove(true, Pointer(490.0, 490.0, Rect(0.0, 0.0, EditSize, EditSize)));
    assert updated;
  }

  /** A 250 x 100 flag is placed 500 wide, 200 high, at (0, 285). */
  lemma FlagPlacementExample()
    ensures InitialPlacement(250, 100) == Rect(0.0, 285.0, 500.0, 200.0)
  {
  }

  /** Uploading image A and then image B leaves the flag where uploading B
      alone does. */
  method UploadTwiceScenario(a: Size, b: Size)
  {
    var first := new App();
    var second := new App();
    first.OnFlagLoad(true, 300, 100);
    second.OnFlagLoad(true, 300, 100);
    var ok := first.ProcessFile("image/png", true, a);
    ok := first.ProcessFile("image/jpeg", true, b);
    ok := second.ProcessFile("image/jpeg", true, b);
    RecentredIdempotent(second.logo1Pos);
    assert first.logo1Pos == second.logo1Pos && first.originalSize == second.originalSize;
  }

  /** A refused file changes nothing; a later press that misses the flag
      cancels the drag an earlier press started. */
  method RefusalAndMissScenario(a: Size)
  {
    var app := new App();
    app.OnFlagLoad(true, 300, 100);
    TypeExamples();
    var ok := app.ProcessFile("text/plain", true, a);
    assert !ok && !app.baseImageLoaded && app.logo1Pos == InitialPlacement(300, 100);

    var screen := Rect(0.0, 0.0, 500.0, 500.0);
    app.MouseDown(Pointer(250.0, 450.0, screen));
    assert app.dragState.isDragging;
    app.MouseDown(Pointer(250.0, 10.0, screen));
    assert app.dragState == Idle;
  }
}
