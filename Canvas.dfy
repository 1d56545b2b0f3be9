/** The size class of the `size` query parameter and the canvas it gives (main.go, `mapHandler`). */
module Canvas {

  const BaseWidth: nat := 1280
  const BaseHeight: nat := 720

  datatype CanvasSize = CanvasSize(width: nat, height: nat)

  /** The multiplier switch: "1" gives 1, "2" gives 2, "3" gives 4, anything else 1. */
  function SizeMultiplier(size: string): (m: nat)
    ensures m == 1 || m == 2 || m == 4
    ensures m == 2 <==> size == "2"
    ensures m == 4 <==> size == "3"
  {
    if size == "1" then 1
    else if size == "2" then 2
    else if size == "3" then 4
    else 1
  }

  /** The base canvas scaled by the multiplier. */
  function CanvasFor(multiplier: nat): (c: CanvasSize)
    ensures c.width * BaseHeight == c.height * BaseWidth
    ensures c.width >= BaseWidth <==> multiplier >= 1
  {
    CanvasSize(BaseWidth * multiplier, BaseHeight * multiplier)
  }

  /** The three documented size classes and the default. */
  lemma SizeClasses(size: string)
    ensures CanvasFor(SizeMultiplier("1")) == CanvasSize(1280, 720)
    ensures CanvasFor(SizeMultiplier("2")) == CanvasSize(2560, 1440)
    ensures CanvasFor(SizeMultiplier("3")) == CanvasSize(5120, 2880)
    ensures size !in {"2", "3"} ==> CanvasFor(SizeMultiplier(size)) == CanvasSize(1280, 720)
  {
  }
}
