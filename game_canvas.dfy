/**
 * javax.microedition.lcdui.game.GameCanvas: the key-state masks, the
 * key-state getter and the argument handling of flushGraphics.
 */
module GameCanvas {
  import JavaInt

  // Canvas game-action codes.
  const UP: bv32 := 1
  const LEFT: bv32 := 2
  const RIGHT: bv32 := 5
  const DOWN: bv32 := 6
  const FIRE: bv32 := 8
  const GAME_A: bv32 := 9
  const GAME_B: bv32 := 10
  const GAME_C: bv32 := 11
  const GAME_D: bv32 := 12

  const UP_PRESSED: bv32 := 1 << UP
  const DOWN_PRESSED: bv32 := 1 << DOWN
  const LEFT_PRESSED: bv32 := 1 << LEFT
  const RIGHT_PRESSED: bv32 := 1 << RIGHT
  const FIRE_PRESSED: bv32 := 1 << FIRE
  const GAME_A_PRESSED: bv32 := 1 << GAME_A
  const GAME_B_PRESSED: bv32 := 1 << GAME_B
  const GAME_C_PRESSED: bv32 := 1 << GAME_C
  const GAME_D_PRESSED: bv32 := 1 << GAME_D

  const Masks: seq<bv32> := [UP_PRESSED, DOWN_PRESSED, LEFT_PRESSED, RIGHT_PRESSED, FIRE_PRESSED,
                             GAME_A_PRESSED, GAME_B_PRESSED, GAME_C_PRESSED, GAME_D_PRESSED]

  const MaskSet: set<bv32> := {UP_PRESSED, DOWN_PRESSED, LEFT_PRESSED, RIGHT_PRESSED, FIRE_PRESSED,
                                GAME_A_PRESSED, GAME_B_PRESSED, GAME_C_PRESSED, GAME_D_PRESSED}

  predicate SingleBit(m: bv32) { m != 0 && m & (m - 1) == 0 }

  /** The nine masks are single bits and no two share a bit. */
  lemma MasksAreDistinctBits()
    ensures |Masks| == 9
    ensures forall i :: 0 <= i < |Masks| ==> SingleBit(Masks[i])
    ensures forall i, j :: 0 <= i < j < |Masks| ==> Masks[i] & Masks[j] == 0
  {
  }

  /** getKeyStates: the platform's key state, read as a Java int. */
  function GetKeyStates(platformKeyState: bv32): (r: int)
    ensures JavaInt.IsInt(r)
    ensures JavaInt.ToBits(r) == platformKeyState
  {
    JavaInt.FromBits(platformKeyState)
  }

  /** How flushGraphics asks for the screen to be updated. */
  datatype Repaint = PlatformRepaint | NoRepaint | CanvasRepaint

  /** What flushGraphics(x, y, width, height) draws and how it repaints. */
  datatype FlushPlan = FlushPlan(x: int, y: int, width: int, height: int, repaint: Repaint)

  /**
   * flushGraphics(x, y, width, height) on a canvas `canvasHeight` high: the
   * height is cut to min(getHeight()-y, height-y) in Java int arithmetic;
   * with the paint queue the platform repaint happens only when this canvas
   * is current, otherwise the canvas repaint is requested.
   */
  function FlushGraphics(canvasHeight: int, x: int, y: int, width: int, height: int,
                         usePaintQueue: bool, isCurrent: bool): (p: FlushPlan)
    requires JavaInt.IsInt(canvasHeight) && JavaInt.IsInt(y) && JavaInt.IsInt(height)
    ensures p.x == x && p.y == y && p.width == width
    ensures p.height <= JavaInt.Sub(canvasHeight, y) && p.height <= JavaInt.Sub(height, y)
    ensures p.height == JavaInt.Sub(canvasHeight, y) || p.height == JavaInt.Sub(height, y)
    ensures p.repaint == PlatformRepaint <==> usePaintQueue && isCurrent
    ensures p.repaint == CanvasRepaint <==> !usePaintQueue
  {
    var a := JavaInt.Sub(canvasHeight, y);
    var b := JavaInt.Sub(height, y);
    FlushPlan(x, y, width, if a <= b then a else b,
              if !usePaintQueue then CanvasRepaint else if isCurrent then PlatformRepaint else NoRepaint)
  }

  /** flushGraphics() is flushGraphics(0, 0, width, height): it draws the whole canvas. */
  lemma FlushAllDrawsWholeCanvas(width: int, height: int, usePaintQueue: bool, isCurrent: bool)
    requires JavaInt.IsInt(height)
    ensures FlushGraphics(height, 0, 0, width, height, usePaintQueue, isCurrent).height == height
  {
  }
}
