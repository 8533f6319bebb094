/**
 * Text styles as the emulator records them per cell: a foreground and a
 * background colour, and the attribute flags that SGR sets and clears.
 * This stands for the display library's style value; only the parts the
 * emulator writes are modelled.
 */
module Styles {
  import opened Wrappers

  type U8 = x: int | 0 <= x < 256

  datatype Color =
    | Reset
    | Black | Red | Green | Yellow | Blue | Magenta | Cyan | Gray
    | DarkGray | LightRed | LightGreen | LightYellow | LightBlue | LightMagenta | LightCyan | White
    | Rgb(r: U8, g: U8, b: U8)
    | Indexed(index: U8)

  datatype Modifier = Bold | Dim | Italic | Underlined | SlowBlink | Reversed | Hidden | CrossedOut

  /**
   * `addModifier` holds the flags the style switches on, `subModifier` those it
   * explicitly switches off; the library keeps both so that styles can be layered.
   */
  datatype Style = Style(fg: Option<Color>, bg: Option<Color>, addModifier: set<Modifier>, subModifier: set<Modifier>)

  const DefaultStyle: Style := Style(None, None, {}, {})

  /** Switch the modifiers in `m` on; every other modifier keeps its setting. */
  function AddModifier(s: Style, m: set<Modifier>): (r: Style)
    ensures m <= r.addModifier && m !! r.subModifier
    ensures forall x :: x !in m ==> (x in r.addModifier <==> x in s.addModifier) && (x in r.subModifier <==> x in s.subModifier)
    ensures r.fg == s.fg && r.bg == s.bg
  {
    s.(addModifier := s.addModifier + m, subModifier := s.subModifier - m)
  }

  /** Switch the modifiers in `m` off explicitly; every other modifier keeps its setting. */
  function RemoveModifier(s: Style, m: set<Modifier>): (r: Style)
    ensures m <= r.subModifier && m !! r.addModifier
    ensures forall x :: x !in m ==> (x in r.addModifier <==> x in s.addModifier) && (x in r.subModifier <==> x in s.subModifier)
    ensures r.fg == s.fg && r.bg == s.bg
  {
    s.(addModifier := s.addModifier - m, subModifier := s.subModifier + m)
  }

  /** The eight standard colours of SGR 30-37 and 40-47; anything past 7 is White. */
  function AnsiToColor(n: nat): Color
  {
    match n
    case 0 => Black
    case 1 => Red
    case 2 => Green
    case 3 => Yellow
    case 4 => Blue
    case 5 => Magenta
    case 6 => Cyan
    case _ => White
  }

  /** The eight bright colours of SGR 90-97 and 100-107; anything past 7 is White. */
  function BrightAnsiToColor(n: nat): Color
  {
    match n
    case 0 => DarkGray
    case 1 => LightRed
    case 2 => LightGreen
    case 3 => LightYellow
    case 4 => LightBlue
    case 5 => LightMagenta
    case 6 => LightCyan
    case _ => White
  }

  /**
   * Each table gives eight distinct colours for 0..7, the two tables meet
   * only at 7 (White), and neither ever yields an indexed, RGB or reset colour.
   */
  lemma AnsiTablesDistinct(i: nat, j: nat)
    requires i < 8 && j < 8
    ensures i != j ==> AnsiToColor(i) != AnsiToColor(j) && BrightAnsiToColor(i) != BrightAnsiToColor(j)
    ensures AnsiToColor(i) == BrightAnsiToColor(j) <==> i == 7 && j == 7
    ensures !AnsiToColor(i).Indexed? && !AnsiToColor(i).Rgb? && AnsiToColor(i) != Reset
    ensures !BrightAnsiToColor(i).Indexed? && !BrightAnsiToColor(i).Rgb? && BrightAnsiToColor(i) != Reset
  {
  }
}
