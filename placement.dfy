/**
 * The vertical placement solver shared by the three document kinds: the blank space
 * put above a block so that it sits at the top, the middle or the bottom of the frame.
 */
module Placement {
  import opened Scale

  /** Python's `max(0, x)`. */
  function AtLeastZero(x: real): (r: real)
    ensures 0.0 <= r && x <= r
    ensures r == x || r == 0.0
  {
    if x < 0.0 then 0.0 else x
  }

  /**
   * The spacer above a block of estimated height `contentHeight` on a page of height
   * `pageHeight` with margin `margin`; `scale` sizes the extra bottom allowance.
   * "top" and every unrecognised position put the block at the top of the frame;
   * "middle" centres it; "bottom" ends it `int(20 * scale)` above the bottom margin.
   * Blocks taller than the room they need get no spacer.
   */
  function SpacerAmount(position: string, pageHeight: real, margin: real, contentHeight: real,
                        scale: real): (spacer: real)
    ensures 0.0 <= spacer
    ensures position != "middle" && position != "bottom" ==> spacer == 0.0
    ensures position == "middle" ==>
      var area := pageHeight - 2.0 * margin;
      && (contentHeight <= area ==> spacer + contentHeight + spacer == area)
      && (area < contentHeight ==> spacer == 0.0)
    ensures position == "bottom" ==>
      var area, extra := pageHeight - 2.0 * margin, Scaled(20.0, scale) as real;
      && (contentHeight + extra <= area ==> spacer + contentHeight + extra == area)
      && (area < contentHeight + extra ==> spacer == 0.0)
  {
    var contentArea := pageHeight - 2.0 * margin;
    if position == "top" then 0.0
    else if position == "middle" then AtLeastZero((contentArea - contentHeight) / 2.0)
    else if position == "bottom" then
      AtLeastZero(contentArea - contentHeight - Scaled(20.0, scale) as real)
    else 0.0
  }

  /** Bottom placement never leaves more room above the block than the free space. */
  lemma BottomWithinFreeSpace(pageHeight: real, margin: real, contentHeight: real, scale: real)
    requires 0.0 <= scale
    ensures SpacerAmount("bottom", pageHeight, margin, contentHeight, scale)
            <= AtLeastZero(pageHeight - 2.0 * margin - contentHeight)
  {
  }

  /**
   * A block that fits the frame still fits after its spacer, whatever the position:
   * placement never pushes content past the bottom margin.
   */
  lemma PlacedBlockFits(position: string, pageHeight: real, margin: real, contentHeight: real, scale: real)
    requires 0.0 <= scale && 0.0 <= contentHeight <= pageHeight - 2.0 * margin
    ensures SpacerAmount(position, pageHeight, margin, contentHeight, scale) + contentHeight
            <= pageHeight - 2.0 * margin
  {
  }

  /** A taller block never gets a larger spacer. */
  lemma TallerBlockSmallerSpacer(position: string, pageHeight: real, margin: real,
                                 shorter: real, taller: real, scale: real)
    requires shorter <= taller
    ensures SpacerAmount(position, pageHeight, margin, taller, scale)
            <= SpacerAmount(position, pageHeight, margin, shorter, scale)
  {
  }
}
