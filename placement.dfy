/**
 * `WatermarkTool.get_watermark_position`: the anchor (top-left pixel) of the
 * watermark text in an image of the given width and height. The text box is
 * estimated from the font size alone, 8 times as wide as it is tall.
 */
module Placement {

  const MARGIN := 10

  const TOP_LEFT := "top-left"
  const TOP_RIGHT := "top-right"
  const BOTTOM_LEFT := "bottom-left"
  const BOTTOM_RIGHT := "bottom-right"
  const CENTER := "center"

  /** The placements the tool names; any other string is accepted too. */
  const PLACEMENTS: set<string> := {TOP_LEFT, TOP_RIGHT, BOTTOM_LEFT, BOTTOM_RIGHT, CENTER}

  /** The estimated width of the text: eight times its height. */
  function TextWidth(fontSize: int): (w: int)
    ensures w == 8 * TextHeight(fontSize)
  {
    fontSize * 8
  }

  /** The estimated height of the text: the font size itself. */
  function TextHeight(fontSize: int): (h: int)
    ensures h == fontSize
  {
    fontSize
  }

  /**
   * On each axis the anchor is at the margin, one margin short of the far edge
   * for the text box, or centred (rounded down) in the room the box leaves.
   */
  function Position(width: int, height: int, placement: string, fontSize: int): (r: (int, int))
    ensures var x, tw := r.0, TextWidth(fontSize);
            x == MARGIN || x + tw + MARGIN == width || 0 <= (width - tw) - 2 * x <= 1
    ensures var y, th := r.1, TextHeight(fontSize);
            y == MARGIN || y + th + MARGIN == height || 0 <= (height - th) - 2 * y <= 1
  {
    var textWidth := TextWidth(fontSize);
    var textHeight := TextHeight(fontSize);
    if placement == TOP_LEFT then (MARGIN, MARGIN)
    else if placement == TOP_RIGHT then (width - textWidth - MARGIN, MARGIN)
    else if placement == BOTTOM_LEFT then (MARGIN, height - textHeight - MARGIN)
    else if placement == BOTTOM_RIGHT then (width - textWidth - MARGIN, height - textHeight - MARGIN)
    else if placement == CENTER then ((width - textWidth) / 2, (height - textHeight) / 2)
    else (MARGIN, MARGIN)
  }

  lemma TopLeftAnchor(width: int, height: int, fontSize: int)
    ensures Position(width, height, TOP_LEFT, fontSize) == (MARGIN, MARGIN)
  {
  }

  lemma TopRightAnchor(width: int, height: int, fontSize: int)
    ensures var (x, y) := Position(width, height, TOP_RIGHT, fontSize);
            x + 8 * fontSize + MARGIN == width && y == MARGIN
  {
  }

  lemma BottomLeftAnchor(width: int, height: int, fontSize: int)
    ensures var (x, y) := Position(width, height, BOTTOM_LEFT, fontSize);
            x == MARGIN && y + fontSize + MARGIN == height
  {
  }

  lemma BottomRightAnchor(width: int, height: int, fontSize: int)
    ensures var (x, y) := Position(width, height, BOTTOM_RIGHT, fontSize);
            x + 8 * fontSize + MARGIN == width && y + fontSize + MARGIN == height
  {
  }

  /**
   * The centre anchor is the floor of half the room left on each axis, also
   * when the text box is larger than the image and that room is negative.
   */
  lemma CenterAnchor(width: int, height: int, fontSize: int)
    ensures var (x, y) := Position(width, height, CENTER, fontSize);
            0 <= (width - 8 * fontSize) - 2 * x <= 1 && 0 <= (height - fontSize) - 2 * y <= 1
  {
  }

  /** An unknown placement name is placed like the top-left corner. */
  lemma UnknownPlacementIsTopLeft(width: int, height: int, placement: string, fontSize: int)
    requires placement !in PLACEMENTS
    ensures Position(width, height, placement, fontSize) == Position(width, height, TOP_LEFT, fontSize)
  {
  }

  /** In an image with room for the text box and both margins, the box lies inside the image. */
  lemma Containment(width: int, height: int, placement: string, fontSize: int)
    requires fontSize >= 0
    requires width >= TextWidth(fontSize) + 2 * MARGIN && height >= TextHeight(fontSize) + 2 * MARGIN
    ensures var (x, y) := Position(width, height, placement, fontSize);
            0 <= x && x + TextWidth(fontSize) <= width && 0 <= y && y + TextHeight(fontSize) <= height
  {
  }
}
