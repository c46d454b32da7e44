/** Pointer handling of the renderer that does not depend on its state
    (renderer.js, mousemove): the messages the renderer sends to the main
    process, the alpha hit test that decides click-through, the 5-pixel drag
    threshold, and the incremental drag deltas. */
module Pointer {
  import opened Bytes

  /** The renderer's messages to the main process. SET_IGNORE_MOUSE_EVENTS
      carries the ignore flag and whether the {forward: true} option was given. */
  datatype Message =
    | ExitApp
    | SetIgnoreMouseEvents(ignore: bool, forward: bool)
    | ResizeWindow(deltaX: int)
    | MoveWindow(deltaX: int, deltaY: int)

  /** The alpha byte of the skin pixel under the cursor, or the failure of the
      pixel read. */
  datatype PixelRead = Alpha(alpha: Byte) | ReadError

  /** The body's CSS cursor: unset until the first hover hit test. */
  datatype Cursor = Unset | Arrow | Hand

  /** Pixels with alpha below this are treated as transparent. */
  const ALPHA_THRESHOLD: int := 10

  /** A held button becomes a drag once the pointer is more than this many
      pixels away from the reference point on either axis. */
  const DRAG_THRESHOLD: int := 5

  /** A pixel counts as transparent when its alpha is 9 or less; a failed read
      never does. */
  predicate IsTransparent(p: PixelRead)
    ensures IsTransparent(p) <==> p.Alpha? && p.alpha <= 9
    ensures p.ReadError? ==> !IsTransparent(p)
  {
    p.Alpha? && p.alpha < ALPHA_THRESHOLD
  }

  /** The message of a hover hit test: click-through with forwarding exactly on a
      transparent pixel; an opaque pixel and a failed read both turn
      click-through off. */
  function HitTest(p: PixelRead): (m: Message)
    ensures m.SetIgnoreMouseEvents?
    ensures m.ignore <==> p.Alpha? && p.alpha < ALPHA_THRESHOLD
    ensures m.forward == m.ignore
  {
    if IsTransparent(p) then SetIgnoreMouseEvents(true, true) else SetIgnoreMouseEvents(false, false)
  }

  /** Alpha 9 is still transparent, alpha 10 already opaque. */
  lemma HitTestBoundary()
    ensures HitTest(Alpha(9)) == SetIgnoreMouseEvents(true, true)
    ensures HitTest(Alpha(10)) == SetIgnoreMouseEvents(false, false)
    ensures HitTest(ReadError) == SetIgnoreMouseEvents(false, false)
  {
  }

  /** The cursor after a hover hit test: the arrow over a transparent pixel, the
      hand over an opaque one, and unchanged when the read failed. */
  function HoverCursor(p: PixelRead, current: Cursor): (c: Cursor)
    ensures p.ReadError? ==> c == current
    ensures p.Alpha? ==> (c == Arrow <==> IsTransparent(p)) && (c == Hand <==> !IsTransparent(p))
  {
    match p
    case ReadError => current
    case Alpha(_) => if IsTransparent(p) then Arrow else Hand
  }

  function Abs(x: int): int { if x < 0 then -x else x }

  /** Movement of more than 5 pixels on either axis starts a drag. */
  predicate PastDragThreshold(deltaX: int, deltaY: int)
    ensures PastDragThreshold(deltaX, deltaY) <==>
      deltaX > DRAG_THRESHOLD || deltaX < -DRAG_THRESHOLD || deltaY > DRAG_THRESHOLD || deltaY < -DRAG_THRESHOLD
    ensures !PastDragThreshold(deltaX, deltaY) ==> -5 <= deltaX <= 5 && -5 <= deltaY <= 5
  {
    Abs(deltaX) > DRAG_THRESHOLD || Abs(deltaY) > DRAG_THRESHOLD
  }

  // ---------------------------------------------------------------------------
  // Incremental deltas
  // ---------------------------------------------------------------------------

  /** The deltas a drag emits along one axis when the pointer is reported at
      each of positions in turn, the reference point being reset to the pointer
      after every emission. */
  function DragDeltas(start: int, positions: seq<int>): (ds: seq<int>)
    ensures |ds| == |positions|
    decreases |positions|
  {
    if positions == [] then [] else [positions[0] - start] + DragDeltas(positions[0], positions[1..])
  }

  /** The i-th delta is the i-th position less the one before it (the start,
      for the first). */
  lemma {:induction false} DeltaAt(start: int, positions: seq<int>, i: int)
    requires 0 <= i < |positions|
    ensures DragDeltas(start, positions)[i] == positions[i] - (if i == 0 then start else positions[i - 1])
    decreases |positions|
  {
    if i > 0 {
      DeltaAt(positions[0], positions[1..], i - 1);
    }
  }

  function Total(ds: seq<int>): int
    decreases |ds|
  {
    if ds == [] then 0 else ds[0] + Total(ds[1..])
  }

  /** The emitted deltas add up to the pointer's whole displacement, so the
      window follows the pointer without drifting. */
  lemma {:induction false} DragDeltasTelescope(start: int, positions: seq<int>)
    requires positions != []
    ensures Total(DragDeltas(start, positions)) == positions[|positions| - 1] - start
    decreases |positions|
  {
    if |positions| > 1 {
      DragDeltasTelescope(positions[0], positions[1..]);
    }
  }
}
