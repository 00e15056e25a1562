/**
 * The tag chip cell: only its width rule has behaviour worth stating.
 */
module ButtonOptionCell {

  /** The fixed horizontal chrome the cell adds around its title, in points. */
  const Chrome: real := 7.0 + 7.0 + 10.0 + 5.0

  /** `cellWidth(textWidth)`: the width of a chip whose title measures `textWidth`. */
  function CellWidth(textWidth: real): (w: real)
    ensures w - textWidth == 29.0
    ensures w > textWidth
    ensures textWidth >= 0.0 ==> w >= 29.0
  {
    textWidth + Chrome
  }

  /** A wider title always gives a wider chip, by exactly the same amount. */
  lemma CellWidthMonotone(a: real, b: real)
    ensures CellWidth(a) - CellWidth(b) == a - b
    ensures a < b <==> CellWidth(a) < CellWidth(b)
  {
  }
}
