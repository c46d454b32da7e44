# absolute-dj in Dafny

absolute-dj is a desktop mascot: a transparent, frameless, always-on-top
Electron window shows a character image ("skin") that dances to the system
audio. This project models its core:

- the renderer's frame step (renderer.js, `renderLoop`). The 128-bin byte
  spectrum of an FFT of size 256 is reduced to bass, mid and high levels.
  Each level gives a target for scale, skew and rotation, and each current
  value moves toward its target by linear interpolation (`lerp`) with its own
  weight. A loud frame may flip the image horizontally, and the result is
  written as a CSS transform;
- the skin catalog: the image filter of `loadSkins`, the start-up skin and the
  Shift + right-click cycling;
- the pointer and keyboard state machine of the renderer. It covers the
  mousedown, mousemove, mouseup and contextmenu listeners, the 5-pixel drag
  threshold, incremental move/resize deltas, the alpha hit test that turns
  click-through on and off, and the left click that toggles audio;
- the main process's window: creation geometry and the `RESIZE_WINDOW`,
  `MOVE_WINDOW` and `SET_IGNORE_MOUSE_EVENTS` handlers.

Modules:
- `Bytes`: the byte type of the spectrum.
- `Animation`: band levels, `lerp`, targets, flip and one frame, as
  functions, plus the loop that sums a band as a method.
- `Skins`: the catalog, as functions.
- `Pointer`: the messages and the state-free pointer rules.
- `Renderer`: a class holding the renderer's module-level variables; each
  event listener is a method.
- `MainWindow`: a class for the BrowserWindow's geometry, with the IPC handlers.

Design choices:
- Messages the renderer sends are returned by its methods as a sequence of
  `Pointer.Message` values, and `MainWindow.Handle` consumes them.
- `Math.pow(x, 1.2)` is a parameter `pow` constrained by `IsUnitCurve`: a
  monotone map of [0, 1] into [0, 1] fixing 0 and 1.
- `Math.random()` is a parameter `draw`.
- The outcome of the asynchronous `setupAudio` is a parameter `audioStarted`.
- The pixel under the pointer is a `PixelRead` parameter.
- The contents of the assets directory are a `Listing` parameter.
- Two behaviours of the code worth noting:
  - A failed pixel read turns click-through off, the same as an opaque pixel.
  - `isIgnoreMouse` is never set to true by any listener, so the branch of
    mousemove that clears it is dead. The model keeps the branch and proves
    the flag stays as it was or becomes false.
- The skin's style transform is unset at load and first written by a frame
  or by the stop path; the model starts it at `scale(1)` (`Animation.IDENTITY`),
  which draws the same.
- The skew `(mid/255)^2 * 80` is computed from the integer mid-band sum as
  `midSum^2 * 80 / 6502500`. This is the same number, since `mid = midSum/10`,
  and `Animation.SkewTargetMagnitude` proves that it equals
  `level * level * 80` for `level = mid / 255`.

## Model

| member | source | states |
|---|---|---|
| Animation.SumBounds | renderer.js:136-148 | a run of byte bins sums to between 0 and 255 per bin |
| Animation.Mean | renderer.js:136-148 | a band level, the sum divided by the band width, lies in [0, 255] |
| Animation.BandSum | renderer.js:136-148 | the accumulating loop over bins lo..hi-1 yields the band sum; divided by the width it is the band mean, and it is at most 255 per bin |
| Animation.SumZero | renderer.js:136-148 | a run of bins adds up to zero exactly when every bin in it is zero |
| Animation.BandSilent | renderer.js:136-148 | a band of the snapshot adds up to zero exactly when every bin in the band is zero |
| Animation.Bass | renderer.js:136-138 | the bass level is the mean of bins 0..3: four times it is their sum, it lies in [0, 255], and it is zero exactly when those bins are all zero |
| Animation.Mid | renderer.js:141-143 | the mid level is the mean of bins 10..19: ten times it is their sum, it lies in [0, 255], and it is zero exactly when those bins are all zero |
| Animation.High | renderer.js:146-148 | the high level is the mean of bins 80..119: forty times it is their sum, it lies in [0, 255], and it is zero exactly when those bins are all zero |
| Animation.MidSum | renderer.js:141-143 | the mid sum lies in [0, 2550] and the mid level is that sum over 10 |
| Animation.BandsInRange | renderer.js:135-148 | every bin read (0..3, 10..19, 80..119, 15) lies in the 128-bin snapshot of an FFT of size 256; each level is its sum over 4, 10 and 40 and lies in [0, 255] |
| Animation.Lerp | renderer.js:67-69 | the distance from the result to end is (1 - amt) times the distance from start to end, so a value already at its target stays there |
| Animation.LerpAtTarget | renderer.js:67-69 | lerp(a, a, t) is a for every weight t |
| Animation.LerpBetween | renderer.js:67-69 | for a weight in [0, 1] the result lies between start and end |
| Animation.SmoothGap | renderer.js:158-160 | after n frames toward a fixed target the distance to it is (1 - amt)^n times the initial distance |
| Animation.PowerShrinks | renderer.js:158-160 | for a weight in [0, 1], the factor (1 - amt)^n stays in [0, 1] and never grows with n |
| Animation.SmoothApproaches | renderer.js:158-160 | with a weight in [0, 1] and a fixed target, each frame moves an axis monotonically toward the target without overshooting it, from above and from below |
| Animation.PowerBernoulli | renderer.js:158-160 | for a weight a in [0, 1], (1 - a)^n times (1 + n a) is at most 1, so the smoothing factor tends to 0 when a > 0 |
| Animation.SmoothConverges | renderer.js:158-160 | after n frames toward a fixed target, the gap is on the side it started and at most the first gap divided by 1 + n amt |
| Animation.SmoothWithin | renderer.js:158-160 | for any tolerance eps > 0 and weight in (0, 1], every frame n with n amt eps at least the first gap is within eps of the target: the axis converges |
| Animation.ScaleTarget | renderer.js:151 | the scale target lies in [0.8, 4.0] (the floor 0.8, and 1.2-power of bass/255 times 8 minus 4) |
| Animation.ScaleTargetMonotone | renderer.js:151 | louder bass never gives a smaller scale target |
| Animation.ScaleTargetExtremes | renderer.js:151 | silent bass gives the floor 0.8 and full bass gives 4.0 |
| Animation.SkewTarget | renderer.js:153-154 | the skew target lies in [-80, 80]; it is negative exactly when the mid band is not silent and bin 15 is even, positive exactly when it is not silent and bin 15 is odd |
| Animation.SkewTargetMagnitude | renderer.js:153 | the skew's size is (mid/255)^2 * 80 |
| Animation.SkewTargetSymmetric | renderer.js:154 | the parity of bin 15 decides only the sign of the skew: even and odd give opposite values |
| Animation.RotateTarget | renderer.js:156 | the rotation target (high/255) * 60 - 5 lies in [-5, 55] |
| Animation.RotateTargetMonotone | renderer.js:156 | more treble never gives a smaller rotation target |
| Animation.NextFlip | renderer.js:163-165 | the mirror factor changes exactly when bass exceeds 200 and the random draw exceeds 0.6, and stays +1 or -1 |
| Animation.InitialInRange | renderer.js:63-65 | the start values scale 1, skew 0, rotate 0 lie in the target ranges |
| Animation.Step | renderer.js:150-165 | one frame keeps every axis within its target range, and the mirror changes only when bass exceeds 200 |
| Animation.StepKeepsSettledAxes | renderer.js:158-160 | an axis already at its target is left where it is by a frame |
| Animation.FramesSmoothEachAxis | renderer.js:127-173 | on a repeated snapshot each axis evolves independently by its own smoothing sequence, whatever the random draws; with bass at most 200 the mirror never changes |
| Animation.ToTransform | renderer.js:168-172 | the written transform has vertical scale, skew and rotation equal to the state, and horizontal scale equal to the vertical scale, negated when flipped |
| Skins.LastIndexOf | renderer.js:42 | the result is the position of the last occurrence of the character, or -1 when there is none |
| Skins.Extname | renderer.js:42 | the extension is empty exactly for ".." or when no dot follows the first character; otherwise it is a proper suffix of the name that starts with its only dot |
| Skins.LowerChar | renderer.js:42 | no upper-case ASCII letter comes out; an upper-case letter moves 32 code points to its lower-case form and every other character is kept |
| Skins.ToLower | renderer.js:42 | lower-casing keeps the length, leaves no upper-case ASCII letter, and changes a character only by moving an upper-case letter to lower case |
| Skins.ToLowerIdempotent | renderer.js:42 | lower-casing twice is the same as lower-casing once |
| Skins.IsSkinFile | renderer.js:42-43 | a skin's name has a dotted extension of four or five characters (so hidden names like ".png" and names with no dot are never skins) |
| Skins.SkinFileIgnoresCase | renderer.js:42-43 | two names on the same stem whose dotted suffixes agree once lower-cased are both skins or both not |
| Skins.Filter | renderer.js:41 | the filter never yields more names than the listing has |
| Skins.FilterMembers | renderer.js:41 | a name is kept exactly when it is listed and accepted by the predicate |
| Skins.FilterAppend | renderer.js:41 | the filter keeps listing order: filtering a concatenation concatenates the filtered parts |
| Skins.FilterIdempotent | renderer.js:41 | filtering a filtered list changes nothing |
| Skins.SkinFiles | renderer.js:41-44 | the catalog has no more entries than the directory listing |
| Skins.SkinFilesMembers | renderer.js:41-44 | a name is a skin exactly when it is in the listing and its lower-cased extension is .png, .jpg, .jpeg, .gif or .webp |
| Skins.SkinFilesAppend | renderer.js:41-44 | skins keep directory order: the catalog of a concatenated listing is the concatenation of the catalogs |
| Skins.SkinFilesIdempotent | renderer.js:41-44 | filtering the catalog again changes nothing |
| Skins.ExtnameOfSplit | renderer.js:42 | a non-empty stem followed by a dotted suffix with no other dot has that suffix as its extension |
| Skins.UpperCaseExtensionKept | renderer.js:42-43 | "cat.PNG" is a skin: the extension is compared lower-cased |
| Skins.OtherExtensionDropped | renderer.js:42-43 | "notes.txt" is not a skin |
| Skins.NoExtensionDropped | renderer.js:42-43 | ".gif" (a hidden file with no extension) and "README" are not skins |
| Skins.LowerCaseExtensionKept | renderer.js:42-43 | "dj.webp" is a skin |
| Skins.NextSkinIndex | renderer.js:326 | the next index is in range; it is the following skin, and the first one after the last |
| Skins.CycleTimesIsOffset | renderer.js:326 | from a valid index, k <= count advances move it forward by k, wrapping at most once |
| Skins.CycleReturns | renderer.js:326 | as many advances as there are skins come back to the skin shown |
| Skins.InitialSkin | renderer.js:61 | the start-up skin is the first catalog entry when there is a non-empty one, and default.png otherwise; it is never empty |
| Pointer.IsTransparent | renderer.js:270 | a pixel is transparent exactly when it was read and its alpha is at most 9; a failed read never is |
| Pointer.PastDragThreshold | renderer.js:226 | a move passes the threshold exactly when it is more than 5 pixels on either axis, in either direction; otherwise both deltas lie in [-5, 5] |
| Pointer.HitTest | renderer.js:266-281 | hover sends SET_IGNORE_MOUSE_EVENTS; click-through with forwarding exactly when the pixel's alpha is below 10; an opaque pixel or a failed read turns it off |
| Pointer.HitTestBoundary | renderer.js:270 | alpha 9 is transparent, alpha 10 opaque, a failed read not click-through |
| Pointer.HoverCursor | renderer.js:266-281 | the cursor becomes the arrow over a transparent pixel, the hand over an opaque one, and stays as it was when the read fails |
| Pointer.DragDeltas | renderer.js:223-246 | one delta is emitted per reported pointer position |
| Pointer.DeltaAt | renderer.js:223-246 | the i-th delta is the i-th reported position less the one before it, or less the reference point for the first |
| Pointer.DragDeltasTelescope | renderer.js:223-246 | the deltas of a drag, each taken from the previous reported position, add up to the pointer's whole displacement |
| Renderer.Renderer.constructor | renderer.js:29-65 | at load the catalog is the filtered listing (empty when unreadable), index 0, the first skin or the default is shown, audio is off, the animation is at rest and every flag is cleared |
| Renderer.Renderer.LoadSkins | renderer.js:32-50 | the catalog becomes the filtered listing; an unreadable directory keeps the old catalog |
| Renderer.Renderer.RenderFrame | renderer.js:127-173 | with audio off nothing changes; otherwise the animation state becomes one Step of the old one and the transform is that of the new state; the ranges are kept |
| Renderer.Renderer.KeyDown | renderer.js:186-194 | Escape sends EXIT_APP; Shift is marked held; other keys change nothing |
| Renderer.Renderer.KeyUp | renderer.js:196-200 | releasing Shift clears the held flag; other keys change nothing |
| Renderer.Renderer.MouseDown | renderer.js:202-217 | any button records the reference point; left or right is marked held and restarts the gesture undragged |
| Renderer.Renderer.MouseMove | renderer.js:219-282 | with a button held, the gesture becomes a drag past 5 pixels; a drag sends RESIZE_WINDOW (right button) or MOVE_WINDOW with the delta from the reference point, then moves the reference point to the pointer; without a button the hit test's message is sent and the cursor updated |
| Renderer.LeftDragRun | renderer.js:219-250 | during a left drag, a run of pointer moves sends exactly one MOVE_WINDOW per report, whose deltas are `Pointer.DragDeltas` of the reported positions from the reference point; the drag stays on and the reference point ends at the last position |
| Renderer.Renderer.MouseUp | renderer.js:285-312 | releasing the left or right button clears its held flag and nothing else |
| Renderer.Renderer.ReleaseTimeout | renderer.js:289-310 | after a left release that did not drag, audio toggles: off resets the transform to scale(1), on succeeds exactly when audio could be set up; either release ends the drag |
| Renderer.Renderer.ContextMenu | renderer.js:314-330 | during a drag or without Shift nothing changes; otherwise the catalog is re-read and, unless it is empty, the next skin in cyclic order is shown |
| MainWindow.ResizedWidth | main.js:54-55 | the new side is the old width plus the delta, but never below 100 (so above the minimum size 50) |
| MainWindow.ResizesCompose | main.js:46-58 | above the clamp, two successive resizes equal one resize by the summed delta |
| MainWindow.Window.Create | main.js:3-29 | the window is 300 x 300, 320 pixels in from the bottom-right corner of the work area, minimum size 50 x 50 |
| MainWindow.Window.Resize | main.js:46-58 | the minimum size is set to 50 x 50 and the window becomes a square whose side is the clamped new width, whatever its height was |
| MainWindow.Window.Move | main.js:60-71 | the position shifts by the delta, unclamped |
| MainWindow.Window.SetIgnoreMouseEvents | main.js:73-77 | click-through and forwarding take the requested values |
| MainWindow.Handle | main.js:42-77 | EXIT_APP asks to quit; resize, move and click-through each change only their own part of the sending window, and nothing happens when there is no window |
| MainWindow.FollowDrag | main.js:60-71 | applying the move deltas of a drag one by one places the window at its start plus the pointer's whole displacement, with its size unchanged |

## Left out

- Electron and IPC plumbing: creating the BrowserWindow, `loadFile`, `ipcRenderer.send`, `ipcMain.on`, `BrowserWindow.fromWebContents`. Messages are values; a missing sender window is `null`.
- `GET_SOURCES`, `desktopCapturer`, `getUserMedia`, `AudioContext`, the analyser and `audioContext.close()`: the audio pipeline is outside the model. Its only observable effect is whether `setupAudio` set `isRunning`, which is the `audioStarted` parameter. Its asynchrony is not modelled.
- `Animation.ScaleTarget`: takes any monotone unit curve for `Math.pow(x, 1.2)`, so it proves no property specific to the exponent 1.2.
- Floating point: all animation arithmetic is on exact reals, not IEEE doubles. `Animation.LerpAtTarget`, `Animation.LerpBetween`, `Animation.Step` (its range preservation), `Animation.StepKeepsSettledAxes`, `Animation.SmoothGap`, `Animation.SmoothApproaches`, `Animation.SmoothConverges`, `Animation.SmoothWithin` and `Renderer.Renderer.RenderFrame` (its `Valid()`) hold on reals but can fail by a rounding error on doubles (for instance `(1 - 0.3) * 0.1 + 0.3 * 0.1` is not exactly `0.1` in double precision, so a lerp from 0.1 to 0.1 leaves the interval [0.1, 0.1]; and on doubles the gap stops shrinking once it reaches the rounding error rather than tending to 0).
- `Math.random()`: a parameter `draw`; no distribution is modelled.
- `requestAnimationFrame` and `setTimeout` scheduling: one frame is one `RenderFrame` call, and the 10 ms timer is `ReleaseTimeout`, called by the environment after `MouseUp`; interleavings of other events in that window are whatever order the calls are made in.
- Canvas drawing and the coordinate mapping of the hit test (`getBoundingClientRect`, scaling, `getImageData`): the alpha byte read, or the failure to read it, is the `PixelRead` parameter.
- CSS strings, class lists (`active`, `inactive`), `alert` and console logging. The transform is a record of its four numbers, and the image source is the skin's file name rather than the joined path.
- `Skins.ToLower`: lower-cases ASCII letters only; JavaScript's `toLowerCase` also maps non-ASCII letters.
- `Skins.Extname`: models `path.extname` for directory entries, which contain no path separator.
- The choice of the assets directory (`__dirname` or `process.resourcesPath`), `fs.existsSync` and `fs.readdirSync`: their result is the `Listing` parameter.
- `app.quit` and `window-all-closed`: `MainWindow.Handle` reports that quitting was requested.
