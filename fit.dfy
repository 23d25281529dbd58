// Fitting a user image onto the meme canvas: the rectangle the image is drawn
// into keeps the image's aspect ratio, fills one axis of the canvas and is
// centred on the other. Dimensions are exact reals, not IEEE doubles.
module Fit {

  /** Size and top-left corner of the rectangle the image is drawn into. */
  datatype Rect = Rect(width: real, height: real, startX: real, startY: real)

  /** The rectangle has a non-negative size and lies within the canvas. */
  predicate FitsInside(r: Rect, canvasWidth: real, canvasHeight: real)
  {
    0.0 <= r.width && 0.0 <= r.height &&
    0.0 <= r.startX && r.startX + r.width <= canvasWidth &&
    0.0 <= r.startY && r.startY + r.height <= canvasHeight
  }

  /** The margins left and right, and above and below, are equal. */
  predicate Centred(r: Rect, canvasWidth: real, canvasHeight: real)
  {
    2.0 * r.startX + r.width == canvasWidth && 2.0 * r.startY + r.height == canvasHeight
  }

  /** width : height == imageWidth : imageHeight, without dividing. */
  predicate KeepsAspect(r: Rect, imageWidth: real, imageHeight: real)
  {
    r.width * imageHeight == r.height * imageWidth
  }

  /** Multiplying by a positive number keeps the sign. */
  lemma PositiveFactorSign(x: real, y: real)
    requires y > 0.0
    ensures x * y > 0.0 <==> x > 0.0
  {
  }

  /** An aspect ratio below 1 means the image is taller than wide. */
  lemma PortraitIffTaller(imageWidth: real, imageHeight: real)
    requires imageWidth >= 0.0 && imageHeight > 0.0
    ensures imageWidth / imageHeight < 1.0 <==> imageWidth < imageHeight
  {
    var gap := 1.0 - imageWidth / imageHeight;
    assert gap * imageHeight == imageHeight - imageWidth;
    PositiveFactorSign(gap, imageHeight);
  }

  /**
   * The page's image-fit calculator. A portrait image (aspect ratio below 1)
   * takes the full canvas height and is centred horizontally; every other
   * image, square ones included, takes the full canvas width and is centred
   * vertically. Only the image's own aspect ratio picks the branch. A
   * zero-width image is a degenerate portrait image; a zero height would
   * divide by zero.
   */
  function GetDimensions(canvasWidth: real, canvasHeight: real, imageWidth: real, imageHeight: real): (r: Rect)
    requires imageWidth >= 0.0 && imageHeight > 0.0
    ensures KeepsAspect(r, imageWidth, imageHeight)
    ensures Centred(r, canvasWidth, canvasHeight)
    ensures imageWidth < imageHeight ==> r.height == canvasHeight && r.startY == 0.0
    ensures imageHeight <= imageWidth ==> r.width == canvasWidth && r.startX == 0.0
  {
    var aspectRatio := imageWidth / imageHeight;
    assert aspectRatio * imageHeight == imageWidth;
    PortraitIffTaller(imageWidth, imageHeight);
    if aspectRatio < 1.0 then
      var width := canvasHeight * aspectRatio;
      Rect(width, canvasHeight, (canvasWidth - width) / 2.0, 0.0)
    else
      var height := canvasWidth / aspectRatio;
      assert height * aspectRatio == canvasWidth;
      Rect(canvasWidth, height, 0.0, (canvasHeight - height) / 2.0)
  }

  /** A portrait image is scaled to the canvas height and its width follows. */
  lemma PortraitFillsHeight(canvasWidth: real, canvasHeight: real, imageWidth: real, imageHeight: real)
    requires 0.0 <= imageWidth < imageHeight
    ensures var r := GetDimensions(canvasWidth, canvasHeight, imageWidth, imageHeight);
      r.height == canvasHeight && r.startY == 0.0 &&
      r.width == canvasHeight * imageWidth / imageHeight &&
      r.startX == (canvasWidth - r.width) / 2.0
  {
    var r := GetDimensions(canvasWidth, canvasHeight, imageWidth, imageHeight);
    assert r.width * imageHeight == canvasHeight * imageWidth;
  }

  /** A landscape or square image is scaled to the canvas width and its height follows. */
  lemma LandscapeFillsWidth(canvasWidth: real, canvasHeight: real, imageWidth: real, imageHeight: real)
    requires 0.0 < imageHeight <= imageWidth
    ensures var r := GetDimensions(canvasWidth, canvasHeight, imageWidth, imageHeight);
      r.width == canvasWidth && r.startX == 0.0 &&
      r.height == canvasWidth * imageHeight / imageWidth &&
      r.startY == (canvasHeight - r.height) / 2.0
  {
    var r := GetDimensions(canvasWidth, canvasHeight, imageWidth, imageHeight);
    assert r.height * imageWidth == canvasWidth * imageHeight;
  }

  /** A square image takes the landscape branch and fills the whole width. */
  lemma SquareImageTakesLandscapeBranch(canvasWidth: real, canvasHeight: real, side: real)
    requires side > 0.0
    ensures GetDimensions(canvasWidth, canvasHeight, side, side)
         == Rect(canvasWidth, canvasWidth, 0.0, (canvasHeight - canvasWidth) / 2.0)
  {
    LandscapeFillsWidth(canvasWidth, canvasHeight, side, side);
  }

  /** A zero-width image takes the portrait branch and becomes a vertical line through the centre. */
  lemma ZeroWidthImageIsCentredLine(canvasWidth: real, canvasHeight: real, imageHeight: real)
    requires imageHeight > 0.0
    ensures GetDimensions(canvasWidth, canvasHeight, 0.0, imageHeight)
         == Rect(0.0, canvasHeight, canvasWidth / 2.0, 0.0)
  {
    PortraitFillsHeight(canvasWidth, canvasHeight, 0.0, imageHeight);
  }

  /** A positive factor of at most 1 scales a positive number down, never below 0. */
  lemma ScaleBelow(s: real, t: real)
    requires s > 0.0 && 0.0 < t <= 1.0
    ensures 0.0 < s * t <= s
  {
    assert s - s * t == s * (1.0 - t);
    PositiveFactorSign(t, s);
  }

  /**
   * On a square canvas the computed rectangle lies inside the canvas, as the
   * calculator's documentation promises.
   */
  lemma SquareCanvasContainsImage(side: real, imageWidth: real, imageHeight: real)
    requires side > 0.0 && imageWidth >= 0.0 && imageHeight > 0.0
    ensures FitsInside(GetDimensions(side, side, imageWidth, imageHeight), side, side)
  {
    var r := GetDimensions(side, side, imageWidth, imageHeight);
    if imageWidth == 0.0 {
      ZeroWidthImageIsCentredLine(side, side, imageHeight);
    } else if imageWidth < imageHeight {
      PortraitFillsHeight(side, side, imageWidth, imageHeight);
      var ratio := imageWidth / imageHeight;
      PortraitIffTaller(imageWidth, imageHeight);
      ScaleBelow(side, ratio);
      assert r.width == side * ratio;
    } else {
      LandscapeFillsWidth(side, side, imageWidth, imageHeight);
      var ratio := imageHeight / imageWidth;
      PortraitIffTaller(imageHeight, imageWidth);
      ScaleBelow(side, ratio);
      assert r.height == side * ratio;
    }
  }

  /**
   * On a canvas that is not square some image is drawn partly outside it:
   * a square image on a wide canvas, or a slightly-portrait image on a tall one.
   */
  lemma NonSquareCanvasLetsSomeImageOut(canvasWidth: real, canvasHeight: real)
    requires canvasWidth > 0.0 && canvasHeight > 0.0 && canvasWidth != canvasHeight
    ensures exists imageWidth: real, imageHeight: real ::
      imageWidth > 0.0 && imageHeight > 0.0 &&
      !FitsInside(GetDimensions(canvasWidth, canvasHeight, imageWidth, imageHeight), canvasWidth, canvasHeight)
  {
    if canvasHeight < canvasWidth {
      var r := GetDimensions(canvasWidth, canvasHeight, 1.0, 1.0);
      assert r.height == canvasWidth;
      assert !FitsInside(r, canvasWidth, canvasHeight);
    } else {
      var imageWidth, imageHeight := canvasWidth + canvasHeight, 2.0 * canvasHeight;
      var r := GetDimensions(canvasWidth, canvasHeight, imageWidth, imageHeight);
      assert r.width * imageHeight == canvasHeight * imageWidth;
      assert r.width == imageWidth / 2.0;
      assert canvasWidth < r.width;
      assert !FitsInside(r, canvasWidth, canvasHeight);
    }
  }

  /** Every image fits inside the canvas exactly when the canvas is square. */
  lemma EveryImageFitsIffSquareCanvas(canvasWidth: real, canvasHeight: real)
    requires canvasWidth > 0.0 && canvasHeight > 0.0
    ensures (forall imageWidth: real, imageHeight: real | imageWidth >= 0.0 && imageHeight > 0.0 ::
               FitsInside(GetDimensions(canvasWidth, canvasHeight, imageWidth, imageHeight), canvasWidth, canvasHeight))
            <==> canvasWidth == canvasHeight
  {
    if canvasWidth == canvasHeight {
      forall imageWidth: real, imageHeight: real | imageWidth >= 0.0 && imageHeight > 0.0
        ensures FitsInside(GetDimensions(canvasWidth, canvasHeight, imageWidth, imageHeight), canvasWidth, canvasHeight)
      {
        SquareCanvasContainsImage(canvasWidth, imageWidth, imageHeight);
      }
    } else {
      NonSquareCanvasLetsSomeImageOut(canvasWidth, canvasHeight);
    }
  }

  /**
   * A 400 by 100 canvas and an 800 by 400 image: the image is drawn 200 high
   * from y = -50, overflowing the canvas by 50 above and below.
   */
  lemma WideCanvasOverflow()
    ensures GetDimensions(400.0, 100.0, 800.0, 400.0) == Rect(400.0, 200.0, 0.0, -50.0)
  {
  }

  /**
   * The fit the documentation describes: the image fills the height when it is
   * relatively taller than the canvas (imageWidth / imageHeight below
   * canvasWidth / canvasHeight), and the width otherwise.
   */
  function FitInside(canvasWidth: real, canvasHeight: real, imageWidth: real, imageHeight: real): (r: Rect)
    requires canvasWidth > 0.0 && canvasHeight > 0.0 && imageWidth > 0.0 && imageHeight > 0.0
    ensures FitsInside(r, canvasWidth, canvasHeight)
    ensures KeepsAspect(r, imageWidth, imageHeight)
    ensures Centred(r, canvasWidth, canvasHeight)
    ensures r.width == canvasWidth || r.height == canvasHeight
  {
    if imageWidth * canvasHeight < imageHeight * canvasWidth then
      var width := canvasHeight * imageWidth / imageHeight;
      assert width * imageHeight == canvasHeight * imageWidth;
      assert width * imageHeight < canvasWidth * imageHeight;
      Rect(width, canvasHeight, (canvasWidth - width) / 2.0, 0.0)
    else
      var height := canvasWidth * imageHeight / imageWidth;
      assert height * imageWidth == canvasWidth * imageHeight;
      assert height * imageWidth <= canvasHeight * imageWidth;
      Rect(canvasWidth, height, 0.0, (canvasHeight - height) / 2.0)
  }

  /** On a square canvas the documented fit and the page's calculator agree. */
  lemma FitInsideAgreesOnSquareCanvas(side: real, imageWidth: real, imageHeight: real)
    requires side > 0.0 && imageWidth > 0.0 && imageHeight > 0.0
    ensures FitInside(side, side, imageWidth, imageHeight) == GetDimensions(side, side, imageWidth, imageHeight)
  {
    var r := GetDimensions(side, side, imageWidth, imageHeight);
    var f := FitInside(side, side, imageWidth, imageHeight);
    if imageWidth < imageHeight {
      assert imageWidth * side < imageHeight * side;
      PortraitFillsHeight(side, side, imageWidth, imageHeight);
      assert f.width == side * imageWidth / imageHeight == r.width;
      assert f.height == side == r.height;
      assert f.startX == (side - f.width) / 2.0 == r.startX;
      assert f.startY == 0.0 == r.startY;
    } else {
      assert !(imageWidth * side < imageHeight * side);
      LandscapeFillsWidth(side, side, imageWidth, imageHeight);
      assert f.height == side * imageHeight / imageWidth == r.height;
      assert f.width == side == r.width;
      assert f.startY == (side - f.height) / 2.0 == r.startY;
      assert f.startX == 0.0 == r.startX;
    }
  }
}
