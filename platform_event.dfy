/**
 * org.recompile.mobile.PlatformEvent: the record the platform event queue
 * carries. Fields the chosen constructor leaves alone keep Java's defaults
 * (0 and null).
 */
module PlatformEvent {
  import opened Wrappers

  const KEY_PRESSED: int := 1
  const KEY_REPEATED: int := 2
  const KEY_RELEASED: int := 3
  const POINTER_PRESSED: int := 4
  const POINTER_DRAGGED: int := 5
  const POINTER_RELEASED: int := 6
  const REPAINT_CANVAS: int := 7
  const RUN: int := 8

  /** The eight event types, in declaration order. */
  const Types: seq<int> := [KEY_PRESSED, KEY_REPEATED, KEY_RELEASED, POINTER_PRESSED,
                            POINTER_DRAGGED, POINTER_RELEASED, REPAINT_CANVAS, RUN]

  /** A key event as the shell delivers it: host code, phone code, normalised code. */
  datatype KeyEvent = KeyEvent(code: int, platformCode: int, normalizedCode: int)

  /** Identities of the canvas and runnable objects an event refers to. */
  datatype CanvasRef = CanvasRef(id: nat)
  datatype RunnableRef = RunnableRef(id: nat)

  datatype Event = Event(
    eventType: int,
    code: int, code2: int, code3: int, code4: int,
    keyEvent: Option<KeyEvent>,
    canvas: Option<CanvasRef>,
    runnable: Option<RunnableRef>)

  /** PlatformEvent(Canvas, x, y, width, height). */
  function RepaintEvent(canvas: CanvasRef, x: int, y: int, width: int, height: int): Event
  {
    Event(REPAINT_CANVAS, x, y, width, height, None, Some(canvas), None)
  }

  /** PlatformEvent(Runnable). */
  function RunEvent(r: RunnableRef): Event
  {
    Event(RUN, 0, 0, 0, 0, None, None, Some(r))
  }

  /** PlatformEvent(int type, KeyEvent e). */
  function KeyEventOf(eventType: int, e: KeyEvent): Event
  {
    Event(eventType, 0, 0, 0, 0, Some(e), None, None)
  }

  /** PlatformEvent(int type, int x, int y). */
  function PointerEvent(eventType: int, x: int, y: int): Event
  {
    Event(eventType, x, y, 0, 0, None, None, None)
  }

  /** The type constants are pairwise distinct. */
  lemma {:induction false} TypesDistinct()
    ensures |Types| == 8
    ensures forall i, j :: 0 <= i < j < |Types| ==> Types[i] != Types[j]
  {
    forall i, j | 0 <= i < j < |Types| ensures Types[i] != Types[j] {
      assert Types[i] == i + 1 && Types[j] == j + 1;
    }
  }
}
