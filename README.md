# Avatar flag editor: a Dafny model of its placement and drag engine

The application lets a user upload a picture and drop a flag marker on top of it. The user drags the marker around a fixed 500 x 500 edit canvas and downloads the composite at the picture's own resolution. This project models the logic inside the `App` component of `src/app/page.tsx`. It covers:

- the geometry: fitting and centring the image, the flag's initial and re-centred placement, the drag clamp, the inclusive hit test, the screen-to-canvas pointer map and the edit-to-export scale;
- the component state (`logo1Pos`, `dragState`, whether the flag and a base image are loaded, `originalSize`) and the handlers that change it: the flag's `onload`, `processFile` with its image `onload`, mouse down, mouse move, and mouse up, which is also the mouse-leave handler;
- the rectangles that the draw effect and the download pass to `drawImage`;
- the upload type check.

Modules:

- `Geometry` (geometry.dfy): pure functions on exact reals, with lemmas about them.
- `Upload` (upload.dfy): the MIME prefix check.
- `Editor` (editor.dfy): class `App`. Its fields are the component state, and each handler is a method that replaces fields as the state setters do. `Valid()` is what every handler keeps: the drag state is either idle or a drag of the flag; a drag implies the flag is loaded; a loaded flag spans the whole canvas width and sits at x = 0; `originalSize` is 0 x 0 until an image is loaded. The clamp bounds are deliberately not part of `Valid()`, because the initial and re-centred placements put a tall flag at y < 0. Three client methods (`DragScenario`, `UploadTwiceScenario`, `RefusalAndMissScenario`) run handler sequences and state the outcomes as assertions. `DragScenario` is split into the steps `PressFlag` and `DragToBottom`, which use the facts `FlagPlacementExample` (editor.dfy) and `Geometry.ActualSizeDisplay` about the concrete numbers.
- `Wrappers` (wrappers.dfy): `Option`.

The model reproduces the code literally:

- the two bottom margins (15 when the flag loads, 25 after an upload);
- the flag scaled to the canvas width only;
- the export factor `originalSize.width / 500`, which ignores the height;
- the export drawing the base image unfitted over the whole export canvas.

As a result, the edit view and the export agree exactly when the image is square. `SquareExportMatchesEdit` proves the "if" direction and `ExportMatchesEditOnlyIfSquare` the "only if" direction. `WideExportDiffersFromEdit` works one example through.

The canvas's logical size is the constant 500. The draw effect sets both canvas dimensions to 500 (`src/app/page.tsx:273-276`) before any mouse event can arrive. The draw effect's base image is the one whose size `originalSize` recorded, since both are set in the same `onload`.

## Model

| member | source | states |
|---|---|---|
| Geometry.FitScale | src/app/page.tsx:284-287 | the scale is positive, the scaled image fits 500 x 500 on both axes, and it fills the canvas exactly on at least one axis; an image with one zero side takes the other side's quotient, as `Math.min` with Infinity does |
| Geometry.FitScaleIsLargest | src/app/page.tsx:284-287 | no larger uniform scale fits the image into the canvas |
| Geometry.FitBase | src/app/page.tsx:284-293 | the image's rectangle on the edit canvas lies inside the canvas with non-negative offsets, is centred (equal margins per axis), keeps the aspect ratio and touches two opposite edges |
| Geometry.FitBaseUnique | src/app/page.tsx:284-293 | any rectangle inside the canvas, centred on both axes, with the image's aspect ratio and filling one axis, is the FitBase rectangle |
| Geometry.InitialPlacement | src/app/page.tsx:243-253 | the flag is 500 wide, its height keeps the image's aspect ratio, x = 0 (centred), and its bottom edge is 15 above the canvas bottom |
| Geometry.Recentred | src/app/page.tsx:346-350 | size unchanged, centred horizontally, bottom edge 25 above the canvas bottom |
| Geometry.RecentredForgetsPosition | src/app/page.tsx:345-351 | re-centring depends only on the flag's size, not on its previous position |
| Geometry.RecentredIdempotent | src/app/page.tsx:345-351 | re-centring twice equals re-centring once |
| Geometry.ClampAxis | src/app/page.tsx:464-471 | the clamped coordinate is at least 0, at most extent - size when the flag fits, 0 when it does not, and equal to the proposal exactly when the proposal is 0 or within [0, extent - size] |
| Geometry.ClampAxisIsNearest | src/app/page.tsx:464-471 | when the flag fits, the clamp is the admissible position nearest the proposal |
| Geometry.IsHit | src/app/page.tsx:415-422 | a hit is a point whose offset from the box's top-left corner lies within [0, width] x [0, height], edges included; only a box of non-negative size has hits |
| Geometry.CornersAreHits | src/app/page.tsx:415-422 | all four corners of the closed bounding box (edges included) are hits |
| Geometry.CanvasPos | src/app/page.tsx:400-410 | a client point lies in the canvas's rendered box on an axis exactly when its canvas coordinate lies in [0, 500] on that axis |
| Geometry.ClientOfCanvasPos | src/app/page.tsx:400-410 | mapping the pointer into canvas units and back to the screen gives the pointer |
| Geometry.CanvasOfClientPos | src/app/page.tsx:400-410 | every canvas point is the image of the screen point displayed over it |
| Geometry.HitOnScreen | src/app/page.tsx:400-422 | a press hits the flag in canvas units exactly when the pointer is on the flag as the inverse of getMousePos's map places it in the canvas's bounding client rectangle |
| Geometry.ExportScale | src/app/page.tsx:509 | the factor maps the 500 edit units of width onto exactly `originalSize.width` pixels and is never negative |
| Geometry.ScaledInverse | src/app/page.tsx:515-522 | scaling the flag's rectangle by a positive factor is undone by the reciprocal |
| Geometry.Scaled | src/app/page.tsx:518-521 | the flag's four numbers are multiplied by one factor, so the aspect ratio is kept and the right and bottom edges scale with the rest |
| Geometry.ScaledKeepsHits | src/app/page.tsx:509-522 | a point is on the edit-canvas flag exactly when its scaled image is on the exported flag |
| Geometry.SquareExportMatchesEdit | src/app/page.tsx:509-522 | for a square image the fitted edit rectangle, scaled by the export factor, is exactly the full-size rectangle the export draws |
| Geometry.ExportMatchesEditOnlyIfSquare | src/app/page.tsx:509-522 | if the fitted edit rectangle scaled by the export factor is the full-size rectangle the export draws, the image is square |
| Geometry.WideExportDiffersFromEdit | src/app/page.tsx:512 | for a 1000 x 500 image the edit view (letterboxed at y = 125) maps to y = 250, while the export draws the image at y = 0 |
| Upload.IsImageType | src/app/page.tsx:334 | a file type is accepted exactly when it is "image/" followed by some (possibly empty) subtype |
| Upload.AcceptsEveryImageSubtype | src/app/page.tsx:334 | every "image/..." type is accepted |
| Upload.TypeExamples | src/app/page.tsx:334 | "image/png", "image/svg+xml" and "image/" are accepted; "text/plain", "Image/png", "image" and "" are refused |
| Editor.App.constructor | src/app/page.tsx:205-230 | the initial state: no image, size 0 x 0, no flag, placement (10, 500, 0, 0), idle drag |
| Editor.App.OnFlagLoad | src/app/page.tsx:241-257 | nothing changes if the canvas is not mounted; otherwise the flag is loaded and placed by InitialPlacement |
| Editor.App.ProcessFile | src/app/page.tsx:333-359 | a non-image type is refused with no state change; otherwise the decoded size and image are recorded, and the flag is re-centred only if the handler saw it loaded, which it can only have seen once it was loaded |
| Editor.App.MouseDown | src/app/page.tsx:427-447 | the drag becomes a drag of the flag with offset pointer − position exactly when the flag is loaded and the pointer hits its closed box; otherwise it resets to idle, even mid-drag; a grab offset always lies within the flag's size |
| Editor.App.MouseMove | src/app/page.tsx:452-478 | while dragging the flag, the new position is the clamped pointer − offset; the size never changes; nothing changes (and no update is issued) when not dragging, not mounted, not targeting the flag, or when the clamped position is the current one |
| Editor.App.MouseUp | src/app/page.tsx:483-490 | from any state the drag resets to idle; this is also the mouse-leave handler (line 594) |
| Editor.App.Draw | src/app/page.tsx:263-316 | nothing is drawn when a canvas is not mounted or has no 2D context; otherwise the image goes into the FitBase rectangle (or the placeholder is drawn), and the flag at its placement when loaded |
| Editor.App.Download | src/app/page.tsx:495-523 | the export is refused exactly when there is no image or its width is 0; otherwise the canvas is exactly `originalSize`, the image covers it from (0, 0), and the flag's four numbers are all multiplied by ExportScale |
| Editor.GrabAndHold | src/app/page.tsx:427-478 | pressing the flag and moving to the same point changes the placement exactly when its y was not admissible, and then clamps y into the canvas |

## Left out

- React rendering, `useState`/`useEffect` scheduling and re-render triggering: each state update takes effect at once. The `updated` result of `MouseMove` makes the skipped update visible.
- The stale closure of `logo1` inside `processFile`: it becomes the `markerSeen` argument of `ProcessFile`.
- `FileReader` and `Image.onload` decoding: only the decoded pixel size is modelled. `ProcessFile` joins the type check and the completed decode into one step. A decode that never completes, or fails, is not modelled.
- The `file &&` null check in `processFile` is not modelled, because both callers pass an existing file.
- `alert` notices are not modelled, nor are canvas pixel work (`clearRect`, `fillRect`, `fillText`, the circular preview's `arc`/`clip`/`save`/`restore`), `toDataURL` and the download link. Of the `drawImage` calls, only those drawing the base image and the flag are modelled, by their rectangles. The preview's `drawImage(canvas, 0, 0)` (line 326) copies the edit canvas under the circular clip and is not modelled.
- In `handleDownload`, the `getContext` failure return is not modelled. In the draw effect, the early return when `getContext` gives null (line 270) is covered by `Draw`'s `canvasesMounted` argument, which stands for both the canvas refs and their contexts being present.
- Floating-point rounding and NaN are not modelled: coordinates are exact reals. Infinity appears only in `FitScale`, as the quotient of a zero side, where the other operand of `Math.min` wins.
- Geometry.FitScale and Geometry.FitBase exclude a 0 x 0 image, and `Editor.App.Draw` excludes a loaded 0 x 0 image. For it the source computes `Math.min(Infinity, Infinity)` and then `0 * Infinity`, which is NaN. An image with one zero side is modelled: it gets the degenerate 0 x 500 or 500 x 0 rectangle.
- Geometry.InitialPlacement requires a positive intrinsic flag width, for the same reason. The flag is a fixed bundled asset.
- The pointer map requires the canvas's rendered box to have positive size, which it has while it receives mouse events.
- Geometry.HitOnScreen relates the hit test to the bounding client rectangle, as `getMousePos` does. That rectangle includes the canvas's 2 px CSS border (`border-2`, line 595), so the bitmap is really displayed inset by up to the border width, and the map of the source is off by that inset. The model follows the source's map and does not model the CSS box.
- The `isDraggingOver` highlight, the upload zone's keyboard and click handlers, and drag-and-drop plumbing (`handleFileChange`, `handleDrop`, `handleDragOver`, `handleDragLeave`) are not modelled. They only forward a file to `processFile` or toggle styling.
- `ContributorsFooter` is not modelled: it is a network request to the GitHub API plus markup.
