/** The renderer's module-level state (renderer.js) as one object: the skin
    catalog, the audio on/off flag, the animation values carried from frame to
    frame, and the keyboard and pointer flags of the drag state machine. Each
    event listener is a method; its messages to the main process are returned. */
module Renderer {
  import opened Bytes
  import A = Animation
  import S = Skins
  import P = Pointer

  /** MouseEvent.button values. */
  const LEFT_BUTTON: int := 0
  const RIGHT_BUTTON: int := 2

  class Renderer {
    // Skin catalog.
    var skinList: seq<string>
    var currentSkinIndex: nat
    /** The file name the skin image currently shows. */
    var skinShown: string

    // Audio and animation.
    var isRunning: bool
    var currentScale: real
    var currentSkew: real
    var currentRotate: real
    var flipX: A.Sign
    /** The transform last written to the skin's style. */
    var transform: A.Transform

    // Keyboard and pointer.
    var isShift: bool
    /** Only ever cleared: no handler sets it, so it stays false. */
    var isIgnoreMouse: bool
    var isRightDown: bool
    var isLeftDown: bool
    var startX: int
    var startY: int
    var isDragging: bool
    var cursor: P.Cursor

    ghost function Anim(): A.AnimationState
      reads this
    {
      A.AnimationState(currentScale, currentSkew, currentRotate, flipX)
    }

    /** Every animation value stays within the range of its targets. */
    ghost predicate Valid()
      reads this
    {
      A.InRange(Anim())
    }

    /** Script load: the skins are read once, the first one (or the default
        image) is shown, audio is off and the animation is at rest. */
    constructor (listing: S.Listing)
      ensures Valid()
      ensures skinList == (if listing.Entries? then S.SkinFiles(listing.names) else [])
      ensures currentSkinIndex == 0 && skinShown == S.InitialSkin(skinList)
      ensures !isRunning && Anim() == A.INITIAL && transform == A.IDENTITY
      ensures !isShift && !isIgnoreMouse && !isRightDown && !isLeftDown && !isDragging
      ensures startX == 0 && startY == 0 && cursor == P.Unset
    {
      var skins := if listing.Entries? then S.SkinFiles(listing.names) else [];
      skinList := skins;
      currentSkinIndex := 0;
      skinShown := S.InitialSkin(skins);
      isRunning := false;
      currentScale, currentSkew, currentRotate := 1.0, 0.0, 0.0;
      flipX := 1;
      transform := A.IDENTITY;
      isShift, isIgnoreMouse := false, false;
      isRightDown, isLeftDown := false, false;
      startX, startY := 0, 0;
      isDragging := false;
      cursor := P.Unset;
    }

    /** Re-reads the assets directory; an unreadable directory keeps the list. */
    method LoadSkins(listing: S.Listing)
      modifies this`skinList
      ensures skinList == (if listing.Entries? then S.SkinFiles(listing.names) else old(skinList))
    {
      if listing.Entries? {
        skinList := S.SkinFiles(listing.names);
      }
    }

    /** One animation frame: nothing while audio is off; otherwise the state moves
        by one step of the animation and the new transform is written. */
    method RenderFrame(data: seq<Byte>, pow: real -> real, draw: real)
      requires Valid()
      requires |data| == A.BIN_COUNT
      requires A.IsUnitCurve(pow)
      modifies this`currentScale, this`currentSkew, this`currentRotate, this`flipX, this`transform
      ensures Valid()
      ensures !isRunning ==> Anim() == old(Anim()) && transform == old(transform)
      ensures isRunning ==> Anim() == A.Step(old(Anim()), data, pow, draw)
      ensures isRunning ==> transform == A.ToTransform(Anim())
    {
      if !isRunning {
        return;
      }
      var bassSum := A.BandSum(data, A.BASS_LO, A.BASS_HI);
      var bass := bassSum as real / (A.BASS_HI - A.BASS_LO) as real;
      var midSum := A.BandSum(data, A.MID_LO, A.MID_HI);
      var highSum := A.BandSum(data, A.HIGH_LO, A.HIGH_HI);
      var high := highSum as real / (A.HIGH_HI - A.HIGH_LO) as real;

      var scaleVal := A.ScaleTarget(bass, pow);
      var skewVal := A.SkewTarget(midSum, data[A.SKEW_DIR_BIN]);
      var rotateVal := A.RotateTarget(high);

      currentScale := A.Lerp(currentScale, scaleVal, A.SCALE_LERP);
      currentSkew := A.Lerp(currentSkew, skewVal, A.SKEW_LERP);
      currentRotate := A.Lerp(currentRotate, rotateVal, A.ROTATE_LERP);

      flipX := A.NextFlip(flipX, bass, draw);

      transform := A.ToTransform(A.AnimationState(currentScale, currentSkew, currentRotate, flipX));
    }

    /** Escape asks the main process to quit; Shift is remembered as held. */
    method KeyDown(key: string) returns (sent: seq<P.Message>)
      modifies this`isShift
      ensures sent == (if key == "Escape" then [P.ExitApp] else [])
      ensures isShift == (old(isShift) || key == "Shift")
    {
      sent := [];
      if key == "Escape" {
        sent := [P.ExitApp];
      }
      if key == "Shift" {
        isShift := true;
      }
    }

    method KeyUp(key: string)
      modifies this`isShift
      ensures isShift == (old(isShift) && key != "Shift")
    {
      if key == "Shift" {
        isShift := false;
      }
    }

    /** Any press records the reference point; the left or right button is
        marked held and a new gesture starts undragged. */
    method MouseDown(button: int, screenX: int, screenY: int)
      modifies this`startX, this`startY, this`isLeftDown, this`isRightDown, this`isDragging
      ensures startX == screenX && startY == screenY
      ensures isLeftDown == (old(isLeftDown) || button == LEFT_BUTTON)
      ensures isRightDown == (old(isRightDown) || button == RIGHT_BUTTON)
      ensures isDragging == (old(isDragging) && button != LEFT_BUTTON && button != RIGHT_BUTTON)
    {
      startX := screenX;
      startY := screenY;
      if button == LEFT_BUTTON {
        isLeftDown := true;
        isDragging := false;
      }
      if button == RIGHT_BUTTON {
        isRightDown := true;
        isDragging := false;
      }
    }

    /** With a button held: the gesture becomes a drag past the threshold, and a
        drag sends the delta from the reference point (resize for the right
        button, move otherwise) and moves the reference point to the pointer.
        With no button held: the pixel under the pointer decides click-through. */
    method MouseMove(screenX: int, screenY: int, pixel: P.PixelRead) returns (sent: seq<P.Message>)
      modifies this`isDragging, this`isIgnoreMouse, this`startX, this`startY, this`cursor
      ensures old(isLeftDown || isRightDown) ==>
        var deltaX, deltaY := screenX - old(startX), screenY - old(startY);
        && isDragging == (old(isDragging) || P.PastDragThreshold(deltaX, deltaY))
        && cursor == old(cursor)
        && (isDragging ==>
              && sent == (if old(isIgnoreMouse) then [P.SetIgnoreMouseEvents(false, false)] else [])
                         + [if isRightDown then P.ResizeWindow(deltaX) else P.MoveWindow(deltaX, deltaY)]
              && !isIgnoreMouse
              && startX == screenX && startY == screenY)
        && (!isDragging ==>
              && sent == []
              && isIgnoreMouse == old(isIgnoreMouse)
              && startX == old(startX) && startY == old(startY))
      ensures !old(isLeftDown || isRightDown) ==>
        && sent == [P.HitTest(pixel)]
        && cursor == P.HoverCursor(pixel, old(cursor))
        && isDragging == old(isDragging) && isIgnoreMouse == old(isIgnoreMouse)
        && startX == old(startX) && startY == old(startY)
    {
      sent := [];
      if isLeftDown || isRightDown {
        var deltaX := screenX - startX;
        var deltaY := screenY - startY;
        if !isDragging && P.PastDragThreshold(deltaX, deltaY) {
          isDragging := true;
        }
        if isDragging {
          if isIgnoreMouse {
            sent := sent + [P.SetIgnoreMouseEvents(false, false)];
            isIgnoreMouse := false;
          }
          if isRightDown {
            sent := sent + [P.ResizeWindow(deltaX)];
          } else if isLeftDown {
            sent := sent + [P.MoveWindow(deltaX, deltaY)];
          }
          startX := screenX;
          startY := screenY;
        }
        return;
      }
      sent := [P.HitTest(pixel)];
      cursor := P.HoverCursor(pixel, cursor);
    }

    /** Releasing a button clears its held flag; what the release means is
        settled by ReleaseTimeout. */
    method MouseUp(button: int)
      modifies this`isLeftDown, this`isRightDown
      ensures isLeftDown == (old(isLeftDown) && button != LEFT_BUTTON)
      ensures isRightDown == (old(isRightDown) && button != RIGHT_BUTTON)
    {
      if button == RIGHT_BUTTON {
        isRightDown := false;
      }
      if button == LEFT_BUTTON {
        isLeftDown := false;
      }
    }

    /** The short timer MouseUp schedules. After a left release that did not
        drag it toggles audio: off stops the animation and resets the transform,
        on succeeds exactly when audio capture could be set up. Either release
        then ends the drag. */
    method ReleaseTimeout(button: int, audioStarted: bool)
      modifies this`isDragging, this`isRunning, this`transform
      ensures button == LEFT_BUTTON && !old(isDragging) ==>
        isRunning == (!old(isRunning) && audioStarted)
      ensures button == LEFT_BUTTON && !old(isDragging) && old(isRunning) ==> transform == A.IDENTITY
      ensures !(button == LEFT_BUTTON && !old(isDragging) && old(isRunning)) ==> transform == old(transform)
      ensures !(button == LEFT_BUTTON && !old(isDragging)) ==> isRunning == old(isRunning)
      ensures isDragging == (old(isDragging) && button != LEFT_BUTTON && button != RIGHT_BUTTON)
    {
      if button == RIGHT_BUTTON {
        isDragging := false;
      }
      if button == LEFT_BUTTON {
        if !isDragging {
          if !isRunning {
            isRunning := audioStarted;
          } else {
            isRunning := false;
            transform := A.IDENTITY;
          }
        }
        isDragging := false;
      }
    }

    /** Shift + right-click, outside a drag: the catalog is re-read and, when it
        is not empty, the next skin is shown. */
    method ContextMenu(listing: S.Listing)
      modifies this`skinList, this`currentSkinIndex, this`skinShown
      ensures old(isDragging) || !isShift ==>
        skinList == old(skinList) && currentSkinIndex == old(currentSkinIndex) && skinShown == old(skinShown)
      ensures !old(isDragging) && isShift ==>
        skinList == (if listing.Entries? then S.SkinFiles(listing.names) else old(skinList))
      ensures !old(isDragging) && isShift && skinList == [] ==>
        currentSkinIndex == old(currentSkinIndex) && skinShown == old(skinShown)
      ensures !old(isDragging) && isShift && skinList != [] ==>
        && currentSkinIndex == S.NextSkinIndex(old(currentSkinIndex), |skinList|)
        && skinShown == skinList[currentSkinIndex]
    {
      if isDragging {
        return;
      }
      if isShift {
        LoadSkins(listing);
        if |skinList| == 0 {
          return;
        }
        currentSkinIndex := S.NextSkinIndex(currentSkinIndex, |skinList|);
        skinShown := skinList[currentSkinIndex];
      }
    }
  }

  /** A left drag already under way, with the pointer reported at positions
      (xs[i], ys[i]) in turn: the page sends one MOVE_WINDOW per report, and its
      deltas are exactly DragDeltas of the positions from the reference point. */
  method LeftDragRun(r: Renderer, xs: seq<int>, ys: seq<int>) returns (sent: seq<P.Message>)
    requires |xs| == |ys|
    requires r.isLeftDown && !r.isRightDown && r.isDragging && !r.isIgnoreMouse
    modifies r
    ensures |sent| == |xs|
    ensures forall i :: 0 <= i < |xs| ==>
      sent[i] == P.MoveWindow(P.DragDeltas(old(r.startX), xs)[i], P.DragDeltas(old(r.startY), ys)[i])
    ensures r.isLeftDown && !r.isRightDown && r.isDragging && !r.isIgnoreMouse
    ensures |xs| > 0 ==> r.startX == xs[|xs| - 1] && r.startY == ys[|ys| - 1]
  {
    ghost var x0, y0 := r.startX, r.startY;
    var dxs, dys := P.DragDeltas(r.startX, xs), P.DragDeltas(r.startY, ys);
    sent := [];
    var i := 0;
    while i < |xs|
      invariant 0 <= i <= |xs| && |sent| == i
      invariant r.isLeftDown && !r.isRightDown && r.isDragging && !r.isIgnoreMouse
      invariant r.startX == (if i == 0 then x0 else xs[i - 1])
      invariant r.startY == (if i == 0 then y0 else ys[i - 1])
      invariant forall j :: 0 <= j < i ==> sent[j] == P.MoveWindow(dxs[j], dys[j])
    {
      P.DeltaAt(x0, xs, i);
      P.DeltaAt(y0, ys, i);
      var out := r.MouseMove(xs[i], ys[i], P.ReadError);
      sent := sent + out;
      i := i + 1;
    }
  }
}
