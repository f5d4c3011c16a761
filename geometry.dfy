/**
 * Sizes of the base image and of the overlay ("sticker") on screen.
 *
 * Two rules live here: the letterbox fit that sizes the uploaded base image
 * inside its measured container, and the height cap that sizes the selected
 * overlay. Sizes are exact reals standing for CSS pixels.
 */
module Geometry {

  /** A width and a height in CSS pixels. */
  datatype Size = Size(width: real, height: real)

  /** The size every size field of the page starts at. */
  const Zero: Size := Size(0.0, 0.0)

  predicate NonNegative(s: Size) {
    s.width >= 0.0 && s.height >= 0.0
  }

  /** A decoded PNG or JPEG has at least one pixel on each axis. */
  predicate Positive(s: Size) {
    s.width > 0.0 && s.height > 0.0
  }

  /** `a` and `b` have the same width-to-height ratio (stated without division). */
  predicate SameAspect(a: Size, b: Size) {
    a.width * b.height == a.height * b.width
  }

  /** `a` lies within `c` on both axes. */
  predicate FitsIn(a: Size, c: Size) {
    a.width <= c.width && a.height <= c.height
  }

  /** The image is at least as wide, relative to its height, as the container. */
  predicate WidthBound(container: Size, image: Size) {
    container.width * image.height <= container.height * image.width
  }

  /**
   * The letterbox fit of an image into a container: an image relatively wider
   * than the container spans the container's width, any other spans its height.
   */
  function Letterbox(container: Size, image: Size): (r: Size)
    requires NonNegative(container) && Positive(image)
    ensures NonNegative(r)
    ensures FitsIn(r, container)
    ensures SameAspect(r, image)
    ensures r.width == container.width <==> WidthBound(container, image)
    ensures !WidthBound(container, image) ==> r.height == container.height
  {
    if WidthBound(container, image) then
      var h := container.width * image.height / image.width;
      assert h * image.width == container.width * image.height;
      Size(container.width, h)
    else
      var w := container.height * image.width / image.height;
      assert w * image.height == container.height * image.width;
      Size(w, container.height)
  }

  /**
   * No box with the image's aspect ratio that fits in the container is wider
   * or taller than the letterbox fit.
   */
  lemma LetterboxIsLargest(container: Size, image: Size, b: Size)
    requires NonNegative(container) && Positive(image)
    requires NonNegative(b) && FitsIn(b, container) && SameAspect(b, image)
    ensures b.width <= Letterbox(container, image).width
    ensures b.height <= Letterbox(container, image).height
  {
    var r := Letterbox(container, image);
    if WidthBound(container, image) {
      // b.height * image.width == b.width * image.height <= r.width * image.height == r.height * image.width
      assert b.width * image.height <= r.width * image.height;
      assert b.height * image.width <= r.height * image.width;
    } else {
      assert b.height * image.width <= r.height * image.width;
      assert b.width * image.height <= r.width * image.height;
    }
  }

  /**
   * The letterbox fit is the only box with the image's aspect ratio that fits
   * in the container and touches it on at least one axis.
   */
  lemma LetterboxIsUnique(container: Size, image: Size, b: Size)
    requires NonNegative(container) && Positive(image)
    requires NonNegative(b) && FitsIn(b, container) && SameAspect(b, image)
    requires b.width == container.width || b.height == container.height
    ensures b == Letterbox(container, image)
  {
    var r := Letterbox(container, image);
    LetterboxIsLargest(container, image, b);
    if b.height == container.height {
      assert b.height == r.height;
      assert b.width * image.height == r.width * image.height;
    }
    assert b.width == r.width;
    assert b.height * image.width == r.height * image.width;
  }

  /**
   * The fit as the page computes it — through the aspect ratio, a candidate
   * height for the full container width, and a re-fit by height when that
   * candidate is too tall — is the letterbox fit.
   */
  lemma AspectRatioFitIsLetterbox(container: Size, image: Size)
    requires NonNegative(container) && Positive(image)
    ensures var aspectRatio := image.width / image.height;
            var candidate := container.width / aspectRatio;
            Letterbox(container, image) ==
              if candidate > container.height then Size(container.height * aspectRatio, container.height)
              else Size(container.width, candidate)
  {
    var aspectRatio := image.width / image.height;
    var candidate := container.width / aspectRatio;
    assert candidate * image.width == container.width * image.height by {
      assert aspectRatio * image.height == image.width;
      assert candidate * aspectRatio == container.width;
      calc {
        candidate * image.width;
        candidate * (aspectRatio * image.height);
        (candidate * aspectRatio) * image.height;
        container.width * image.height;
      }
    }
    assert candidate > container.height <==> !WidthBound(container, image) by {
      assert candidate * image.width > container.height * image.width <==> candidate > container.height;
    }
    assert container.height * aspectRatio * image.height == container.height * image.width;
  }

  /** The tallest an overlay is ever shown. */
  const MaxOverlayHeight: real := 100.0

  /**
   * The on-screen size of a selected overlay: its intrinsic size, shrunk with
   * the aspect ratio kept when it is taller than the cap.
   */
  function OverlaySize(image: Size): (r: Size)
    requires Positive(image)
    ensures Positive(r)
    ensures r.height <= MaxOverlayHeight && r.height <= image.height
    ensures r.height == MaxOverlayHeight || r.height == image.height
    ensures SameAspect(r, image)
    ensures image.height <= MaxOverlayHeight ==> r == image
  {
    var aspectRatio := image.width / image.height;
    var height := if MaxOverlayHeight < image.height then MaxOverlayHeight else image.height;
    Size(height * aspectRatio, height)
  }

  /** Capping an already capped overlay changes nothing. */
  lemma OverlaySizeIdempotent(image: Size)
    requires Positive(image)
    ensures OverlaySize(OverlaySize(image)) == OverlaySize(image)
  {
  }

  /** A 1000x500 image in a 476x300 container is shown at 476x238. */
  lemma LetterboxLandscapeExample()
    ensures Letterbox(Size(476.0, 300.0), Size(1000.0, 500.0)) == Size(476.0, 238.0)
  {
  }

  /** A 500x1000 image in a 476x300 container is re-fitted by height to 150x300. */
  lemma LetterboxPortraitExample()
    ensures Letterbox(Size(476.0, 300.0), Size(500.0, 1000.0)) == Size(150.0, 300.0)
  {
  }

  /** A 200x50 overlay is under the cap and keeps its size; a 400x200 one is shown at 200x100. */
  lemma OverlaySizeExamples()
    ensures OverlaySize(Size(200.0, 50.0)) == Size(200.0, 50.0)
    ensures OverlaySize(Size(400.0, 200.0)) == Size(200.0, 100.0)
  {
  }
}
