/** The main process's window geometry (main.js): the overlay window created at
    the bottom-right corner of the work area, and the IPC handlers that resize,
    move and set click-through on the window that sent the message. */
module MainWindow {
  import P = Pointer

  /** Size of the window at creation, and its distance from the work area's
      right and bottom edges. */
  const INITIAL_SIZE: int := 300
  const CORNER_OFFSET: int := 320

  /** The minimum size given to the platform. */
  const MIN_SIZE: int := 50

  /** The smallest width a resize produces; larger than MIN_SIZE. */
  const MIN_RESIZE_WIDTH: int := 100

  /** The new side length after a resize by deltaX: the old width grown by
      deltaX, but never below 100. */
  function ResizedWidth(currentWidth: int, deltaX: int): (w: int)
    ensures w >= MIN_RESIZE_WIDTH && w > MIN_SIZE
    ensures w >= currentWidth + deltaX
    ensures w == currentWidth + deltaX || w == MIN_RESIZE_WIDTH
  {
    var grown := currentWidth + deltaX;
    if grown < MIN_RESIZE_WIDTH then MIN_RESIZE_WIDTH else grown
  }

  /** Above the clamp, successive resizes add up: a drag split into incremental
      deltas ends at the same size as one resize by their sum. */
  lemma ResizesCompose(width: int, d1: int, d2: int)
    requires width + d1 >= MIN_RESIZE_WIDTH
    ensures ResizedWidth(ResizedWidth(width, d1), d2) == ResizedWidth(width, d1 + d2)
  {
  }

  class Window {
    var x: int
    var y: int
    var width: int
    var height: int
    var minWidth: int
    var minHeight: int
    /** Click-through, and whether pointer moves are still forwarded. */
    var ignoreMouse: bool
    var forwardMouse: bool

    /** createWindow: 300 x 300, 320 pixels in from the bottom-right corner of
        a work area of the given size, minimum size 50 x 50. */
    constructor Create(workWidth: int, workHeight: int)
      ensures width == INITIAL_SIZE && height == INITIAL_SIZE
      ensures x == workWidth - CORNER_OFFSET && y == workHeight - CORNER_OFFSET
      ensures minWidth == MIN_SIZE && minHeight == MIN_SIZE
      ensures !ignoreMouse && !forwardMouse
    {
      width, height := INITIAL_SIZE, INITIAL_SIZE;
      x, y := workWidth - CORNER_OFFSET, workHeight - CORNER_OFFSET;
      minWidth, minHeight := MIN_SIZE, MIN_SIZE;
      ignoreMouse, forwardMouse := false, false;
    }

    /** RESIZE_WINDOW: the minimum size is (re)set to 50 x 50 and the window
        becomes a square whose side is the clamped new width; the old height
        plays no part, and the position does not change. */
    method Resize(deltaX: int)
      modifies this`width, this`height, this`minWidth, this`minHeight
      ensures width == ResizedWidth(old(width), deltaX)
      ensures height == width
      ensures minWidth == MIN_SIZE && minHeight == MIN_SIZE
    {
      minWidth, minHeight := MIN_SIZE, MIN_SIZE;
      var currentW := width;
      var newWidth := currentW + deltaX;
      if newWidth < MIN_RESIZE_WIDTH {
        newWidth := MIN_RESIZE_WIDTH;
      }
      width, height := newWidth, newWidth;
    }

    /** MOVE_WINDOW: the position shifts by the delta, unclamped; the size does
        not change. */
    method Move(deltaX: int, deltaY: int)
      modifies this`x, this`y
      ensures x == old(x) + deltaX && y == old(y) + deltaY
    {
      var currentX, currentY := x, y;
      x, y := currentX + deltaX, currentY + deltaY;
    }

    /** SET_IGNORE_MOUSE_EVENTS: click-through on or off, forwarding moves only
        when asked to. */
    method SetIgnoreMouseEvents(ignore: bool, forward: bool)
      modifies this`ignoreMouse, this`forwardMouse
      ensures ignoreMouse == ignore && forwardMouse == forward
    {
      ignoreMouse, forwardMouse := ignore, forward;
    }
  }

  /** The main process's handling of one renderer message. win is the window
      of the sending page, if any; without one every message is ignored. Returns
      whether the application was asked to quit. */
  method Handle(win: Window?, msg: P.Message) returns (quit: bool)
    modifies win
    ensures quit == msg.ExitApp?
    ensures win == null || msg.ExitApp? ==> win == null || unchanged(win)
    ensures win != null && msg.ResizeWindow? ==>
      && win.width == win.height == ResizedWidth(old(win.width), msg.deltaX)
      && win.x == old(win.x) && win.y == old(win.y)
      && win.ignoreMouse == old(win.ignoreMouse) && win.forwardMouse == old(win.forwardMouse)
      && win.minWidth == MIN_SIZE && win.minHeight == MIN_SIZE
    ensures win != null && msg.MoveWindow? ==>
      && win.x == old(win.x) + msg.deltaX && win.y == old(win.y) + msg.deltaY
      && win.width == old(win.width) && win.height == old(win.height)
      && win.minWidth == old(win.minWidth) && win.minHeight == old(win.minHeight)
      && win.ignoreMouse == old(win.ignoreMouse) && win.forwardMouse == old(win.forwardMouse)
    ensures win != null && msg.SetIgnoreMouseEvents? ==>
      && win.ignoreMouse == msg.ignore && win.forwardMouse == msg.forward
      && win.x == old(win.x) && win.y == old(win.y)
      && win.width == old(win.width) && win.height == old(win.height)
      && win.minWidth == old(win.minWidth) && win.minHeight == old(win.minHeight)
  {
    quit := msg.ExitApp?;
    if win == null {
      return;
    }
    match msg {
      case ExitApp =>
      case ResizeWindow(deltaX) => win.Resize(deltaX);
      case MoveWindow(deltaX, deltaY) => win.Move(deltaX, deltaY);
      case SetIgnoreMouseEvents(ignore, forward) => win.SetIgnoreMouseEvents(ignore, forward);
    }
  }

  /** A left drag reported at the given pointer positions moves the window by
      the pointer's whole displacement: the incremental deltas do not drift. */
  method FollowDrag(win: Window, startX: int, startY: int, xs: seq<int>, ys: seq<int>)
    requires |xs| == |ys| > 0
    modifies win
    ensures win.x == old(win.x) + (xs[|xs| - 1] - startX)
    ensures win.y == old(win.y) + (ys[|ys| - 1] - startY)
    ensures win.width == old(win.width) && win.height == old(win.height)
  {
    var dxs, dys := P.DragDeltas(startX, xs), P.DragDeltas(startY, ys);
    P.DragDeltasTelescope(startX, xs);
    P.DragDeltasTelescope(startY, ys);
    var i := 0;
    while i < |xs|
      invariant 0 <= i <= |xs|
      invariant win.x == old(win.x) + (P.Total(dxs) - P.Total(dxs[i..]))
      invariant win.y == old(win.y) + (P.Total(dys) - P.Total(dys[i..]))
      invariant win.width == old(win.width) && win.height == old(win.height)
    {
      win.Move(dxs[i], dys[i]);
      assert dxs[i..] == [dxs[i]] + dxs[i + 1..];
      assert dys[i..] == [dys[i]] + dys[i + 1..];
      i := i + 1;
    }
  }
}
