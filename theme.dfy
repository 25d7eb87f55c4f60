/** The light/dark theme: a flag held by the theme provider and the palette
    of style classes chosen from it. */
module Theme {

  /** The style classes the screens read from the theme. */
  datatype Palette = Palette(
    bg: string,
    card: string,
    text: string,
    textSec: string,
    input: string,
    buttonPrimary: string,
    buttonSecondary: string,
    border: string,
    highlight: string)

  /** The mint highlight, common to both palettes. */
  const MintHighlight: string := "bg-[#ACF2DE] text-[#0D0D0D]"

  const DarkPalette: Palette := Palette(
    "bg-[#0D0D0D]",
    "bg-[#1a1a1a] border-[#333333]",
    "text-white",
    "text-gray-400",
    "bg-[#262626] border-[#404040] text-white placeholder-gray-500 focus:ring-[#F2BBBB]",
    "bg-[#F2BBBB] hover:bg-opacity-80 text-[#0D0D0D]",
    "bg-[#333333] hover:bg-[#404040] text-white",
    "border-[#333333]",
    MintHighlight)

  const LightPalette: Palette := Palette(
    "bg-[#F2E0DC]",
    "bg-[#F2D0E9] border-white/50",
    "text-[#0D0D0D]",
    "text-[#0D0D0D]/60",
    "bg-white/80 border-white text-[#0D0D0D] placeholder-gray-400 focus:ring-[#F2BBBB]",
    "bg-[#F2BBBB] hover:brightness-95 text-[#0D0D0D]",
    "bg-white hover:bg-gray-50 text-[#0D0D0D]",
    "border-white/40",
    MintHighlight)

  /** The palette for a mode; it depends on the dark-mode flag and nothing
      else, and the highlight is the same in both modes. */
  function PaletteFor(isDarkMode: bool): (p: Palette)
    ensures p.highlight == MintHighlight
    ensures p.text == if isDarkMode then "text-white" else "text-[#0D0D0D]"
  {
    if isDarkMode then DarkPalette else LightPalette
  }

  /** The two modes can be told apart by their palettes. */
  lemma PaletteDeterminesMode(a: bool, b: bool)
    requires PaletteFor(a) == PaletteFor(b)
    ensures a == b
  {
    assert |PaletteFor(a).text| == |PaletteFor(b).text|;
  }

  /** The theme provider's state: the dark-mode flag, off at start. */
  class ThemeProvider {
    var isDarkMode: bool

    constructor ()
      ensures !isDarkMode
    {
      isDarkMode := false;
    }

    /** The palette the provider hands to the screens. */
    function Colors(): (r: Palette)
      reads this
      ensures r.highlight == MintHighlight
      ensures r == DarkPalette <==> isDarkMode
    {
      PaletteFor(isDarkMode)
    }

    /** `toggleTheme`: flips the flag. */
    method ToggleTheme()
      modifies this
      ensures isDarkMode == !old(isDarkMode)
    {
      isDarkMode := !isDarkMode;
    }
  }

  /** Toggling twice restores the flag and the palette. */
  method ToggleTwice(t: ThemeProvider)
    modifies t
    ensures t.isDarkMode == old(t.isDarkMode)
    ensures t.Colors() == old(t.Colors())
  {
    t.ToggleTheme();
    t.ToggleTheme();
  }
}
