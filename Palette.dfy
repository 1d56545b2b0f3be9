/** The intensity colour ramp: `intensityToColor` of main.go. */
module Palette {

  /** The eight palette entries, indexed by intensity level 0..7. */
  const Levels: seq<string> := [
    "#27272a",  // 0: inactive, dark grey
    "#bae6fd",  // 1: pale cyan
    "#4ade80",  // 2: green
    "#facc15",  // 3: yellow
    "#f97316",  // 4: orange
    "#dc2626",  // 5: red
    "#86198f",  // 6: magenta
    "#500724"   // 7: deep maroon
  ]

  /** Fallback for levels above the palette. */
  const Darkest: string := "#4a044e"

  /** Fallback tier for "above 5" that the switch never reaches. */
  const SecondDarkest: string := "#b91c1c"

  /**
   * The switch of `intensityToColor`: a case per level 0..7, then the
   * defensive tiers `> 6`, `> 5` and the inactive colour.
   */
  function IntensityToColor(scale: int): (color: string)
    ensures 0 <= scale < |Levels| ==> color == Levels[scale]
    ensures scale >= |Levels| ==> color == Darkest
    ensures scale < 0 ==> color == Levels[0]
  {
    if scale == 0 then "#27272a"
    else if scale == 1 then "#bae6fd"
    else if scale == 2 then "#4ade80"
    else if scale == 3 then "#facc15"
    else if scale == 4 then "#f97316"
    else if scale == 5 then "#dc2626"
    else if scale == 6 then "#86198f"
    else if scale == 7 then "#500724"
    else if scale > 6 then "#4a044e"
    else if scale > 5 then "#b91c1c"
    else "#27272a"
  }

  /** The `scale > 5` tier is dead code: no level is ever given that colour. */
  lemma SecondDarkestUnreachable(scale: int)
    ensures IntensityToColor(scale) != SecondDarkest
  {
  }

  /** A validated level (0..7) always gets a genuine palette entry, never a fallback. */
  lemma ValidLevelHasPaletteEntry(scale: int)
    requires 0 <= scale <= 7
    ensures IntensityToColor(scale) in Levels
    ensures IntensityToColor(scale) != Darkest
  {
  }
}
