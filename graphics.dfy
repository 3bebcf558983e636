/**
 * javax.microedition.lcdui.Graphics: the colour components and the
 * anchor arithmetic shared by the drawing calls. The drawing primitives
 * belong to the platform subclass, which is not part of this model.
 */
module Graphics {
  import JavaInt

  const BASELINE: int := 64
  const BOTTOM: int := 32
  const HCENTER: int := 1
  const LEFT: int := 4
  const RIGHT: int := 8
  const TOP: int := 16
  const VCENTER: int := 2

  /** `(anchor & flag) > 0` for a one-bit flag below bit 31 of a Java int. */
  predicate HasFlag(anchor: int, flag: int)
    requires flag > 0
  {
    (anchor / flag) % 2 == 1
  }

  /** Java `n / 2`, truncating toward zero. */
  function Half(n: int): (r: int)
    ensures n >= 0 ==> 0 <= r && n - 1 <= 2 * r <= n
    ensures n < 0 ==> r <= 0 && n <= 2 * r <= n + 1
  {
    if n >= 0 then n / 2 else -((-n) / 2)
  }

  /**
   * anchorX: the left edge of a box `width` wide anchored at `x`. The
   * flags are tested in the source's order, so a later one overrides an
   * earlier one.
   */
  function AnchorX(x: int, width: int, anchor: int): (r: int)
    requires JavaInt.IsInt(x) && JavaInt.IsInt(width)
    ensures HasFlag(anchor, LEFT) ==> r == x
    ensures !HasFlag(anchor, LEFT) && HasFlag(anchor, RIGHT) ==> r == JavaInt.Sub(x, width)
    ensures !HasFlag(anchor, LEFT) && !HasFlag(anchor, RIGHT) && HasFlag(anchor, HCENTER) ==> r == JavaInt.Sub(x, Half(width))
    ensures !HasFlag(anchor, LEFT) && !HasFlag(anchor, RIGHT) && !HasFlag(anchor, HCENTER) ==> r == x
  {
    var xout := x;
    var xout := if HasFlag(anchor, HCENTER) then JavaInt.Sub(x, Half(width)) else xout;
    var xout := if HasFlag(anchor, RIGHT) then JavaInt.Sub(x, width) else xout;
    if HasFlag(anchor, LEFT) then x else xout
  }

  /**
   * anchorY: the top edge of a box `height` high anchored at `y`, the
   * flags tested in the source's order. BASELINE moves the box down by
   * its height.
   */
  function AnchorY(y: int, height: int, anchor: int): (r: int)
    requires JavaInt.IsInt(y) && JavaInt.IsInt(height)
    ensures HasFlag(anchor, BASELINE) ==> r == JavaInt.Add(y, height)
    ensures !HasFlag(anchor, BASELINE) && HasFlag(anchor, BOTTOM) ==> r == JavaInt.Sub(y, height)
    ensures !HasFlag(anchor, BASELINE) && !HasFlag(anchor, BOTTOM) && HasFlag(anchor, TOP) ==> r == y
    ensures !HasFlag(anchor, BASELINE) && !HasFlag(anchor, BOTTOM) && !HasFlag(anchor, TOP) && HasFlag(anchor, VCENTER) ==>
              r == JavaInt.Sub(y, Half(height))
    ensures !HasFlag(anchor, BASELINE) && !HasFlag(anchor, BOTTOM) && !HasFlag(anchor, TOP) && !HasFlag(anchor, VCENTER) ==> r == y
  {
    var yout := y;
    var yout := if HasFlag(anchor, VCENTER) then JavaInt.Sub(y, Half(height)) else yout;
    var yout := if HasFlag(anchor, TOP) then y else yout;
    var yout := if HasFlag(anchor, BOTTOM) then JavaInt.Sub(y, height) else yout;
    if HasFlag(anchor, BASELINE) then JavaInt.Add(y, height) else yout
  }

  /**
   * With a box that fits without overflow, a centred anchor puts `x` in
   * the middle: as much of the box lies left of `x` as right of it, give
   * or take the odd pixel.
   */
  lemma CentredBoxStraddlesAnchor(x: int, width: int)
    requires 0 <= width && JavaInt.IsInt(x) && JavaInt.IsInt(width) && JavaInt.IsInt(x - width) && JavaInt.IsInt(x + width)
    ensures var left := AnchorX(x, width, HCENTER);
            left <= x <= left + width && (x - left) - (left + width - x) in {0, -1}
  {
    assert HasFlag(HCENTER, HCENTER) && !HasFlag(HCENTER, LEFT) && !HasFlag(HCENTER, RIGHT);
  }

  /** Java `(red<<16) + (green<<8) + blue`, with int wrap-around. */
  function ComposeRGB(red: int, green: int, blue: int): (r: int)
    ensures JavaInt.IsInt(r)
    ensures 0 <= red < 256 && 0 <= green < 256 && 0 <= blue < 256 ==> r == red * 0x1_0000 + green * 0x100 + blue
  {
    JavaInt.Add(JavaInt.Add(JavaInt.Mul(red, 0x1_0000), JavaInt.Mul(green, 0x100)), blue)
  }

  /**
   * The colour is a Java int. `(c >> k) & 0xFF` is `(c / 2^k) % 256`: the
   * arithmetic shift rounds down, as Dafny's division does, and the mask
   * keeps the low byte, which Dafny's non-negative remainder gives.
   */
  class Graphics {
    var color: int

    constructor ()
      ensures color == -1
    {
      color := -1;
    }

    /** getRedComponent: bits 16-23. */
    function GetRedComponent(): (r: int)
      reads this
      ensures 0 <= r < 256
    {
      (color / 0x1_0000) % 0x100
    }

    /** getGreenComponent: bits 8-15. */
    function GetGreenComponent(): (r: int)
      reads this
      ensures 0 <= r < 256
    {
      (color / 0x100) % 0x100
    }

    /** getBlueComponent: bits 0-7. */
    function GetBlueComponent(): (r: int)
      reads this
      ensures 0 <= r < 256
    {
      color % 0x100
    }

    /** getColor: `color & 0xffffff`, the three components with the top byte dropped. */
    function GetColor(): (r: int)
      reads this
      ensures 0 <= r < 0x100_0000
      ensures r == GetRedComponent() * 0x1_0000 + GetGreenComponent() * 0x100 + GetBlueComponent()
      ensures (color - r) % 0x100_0000 == 0
    {
      color % 0x100_0000
    }

    /** getGrayScale: the mean of the three components, rounded down. */
    function GetGrayScale(): (r: int)
      reads this
      ensures 0 <= r < 256
      ensures 3 * r <= GetRedComponent() + GetGreenComponent() + GetBlueComponent() < 3 * r + 3
    {
      var red := (color / 0x1_0000) % 0x100;
      var green := (color / 0x100) % 0x100;
      var blue := color % 0x100;
      ((red + green + blue) / 3) % 0x100
    }

    /** setColor(int): the platform stores the value as given. */
    method SetColor(rgb: int)
      modifies this
      ensures color == rgb
    {
      color := rgb;
    }

    /** setColor(red, green, blue). */
    method SetColorRGB(red: int, green: int, blue: int)
      modifies this
      ensures color == ComposeRGB(red, green, blue)
    {
      SetColor(JavaInt.Add(JavaInt.Add(JavaInt.Mul(red, 0x1_0000), JavaInt.Mul(green, 0x100)), blue));
    }

    /** setGrayScale: the low byte of `value` as all three components. */
    method SetGrayScale(value: int)
      modifies this
      ensures var v := value % 0x100;
              GetRedComponent() == v && GetGreenComponent() == v && GetBlueComponent() == v
      ensures GetGrayScale() == value % 0x100
    {
      var v := value % 0x100;
      SetColor(ComposeRGB(v, v, v));
      GrayRoundTrip(this, v);
    }
  }

  /** Components in [0, 255] passed to setColor(red, green, blue) are what the getters give back. */
  lemma SetColorRoundTrip(g: Graphics, red: int, green: int, blue: int)
    requires 0 <= red < 256 && 0 <= green < 256 && 0 <= blue < 256
    requires g.color == ComposeRGB(red, green, blue)
    ensures g.GetRedComponent() == red && g.GetGreenComponent() == green && g.GetBlueComponent() == blue
    ensures g.GetColor() == g.color
  {
    var c := g.color;
    assert c == red * 0x1_0000 + green * 0x100 + blue;
    assert c / 0x100 == red * 0x100 + green;
    assert c / 0x1_0000 == red;
  }

  /** A grey set from a byte reads back as that byte, on each component and as the grey level. */
  lemma GrayRoundTrip(g: Graphics, v: int)
    requires 0 <= v < 256 && g.color == ComposeRGB(v, v, v)
    ensures g.GetRedComponent() == v && g.GetGreenComponent() == v && g.GetBlueComponent() == v
    ensures g.GetGrayScale() == v
  {
    SetColorRoundTrip(g, v, v, v);
  }
}
