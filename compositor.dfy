/** The compositing decisions of `drawCanvas` (src/components/ImageGenerator.tsx):
    the text-behind mode taken from the component's prop, the "cover" fit of the
    background into the canvas, the in-place inversion of the mask's alpha
    channel, and the choice between the mask cut-out, the bounding-box clip and
    text in front, with the shadow each one uses. Pixels are not drawn here. */
module Compositor {
  import opened Common
  import opened HumanDetection
  import opened TextLayout

  /** The side of the square poster canvas. */
  const CanvasSide: real := 800.0

  /** The text-behind mode follows a boolean prop and falls back to automatic
      placement when the prop is absent. */
  function ModeFromProp(textBehindImage: Option<bool>): (m: Preference)
    ensures m == Behind <==> textBehindImage == Some(true)
    ensures m == Front <==> textBehindImage == Some(false)
    ensures m == Auto <==> textBehindImage.None?
  {
    match textBehindImage
    case Some(b) => if b then Behind else Front
    case None => Auto
  }

  // ---------------------------------------------------------------------------
  // Cover fit

  /** Where the background is drawn: its top-left corner and its size. */
  datatype DrawRect = DrawRect(offsetX: real, offsetY: real, width: real, height: real)

  lemma ScaledSide(a: real, b: real, c: real)
    requires b > 0.0
    ensures (a * (c / b)) * b == a * c
  {
  }

  /** An image wider than the canvas (by aspect) is scaled to overflow sideways. */
  lemma WideOverflows(imgW: Pos, imgH: Pos, canvasW: Pos, canvasH: Pos)
    requires imgW / imgH > canvasW / canvasH
    ensures imgW * (canvasH / imgH) > canvasW
  {
    assert imgW * canvasH > canvasW * imgH by {
      assert imgW == (imgW / imgH) * imgH;
      assert canvasW == (canvasW / canvasH) * canvasH;
    }
    ScaledSide(imgW, imgH, canvasH);
  }

  /** An image no wider than the canvas (by aspect) overflows vertically. */
  lemma TallOverflows(imgW: Pos, imgH: Pos, canvasW: Pos, canvasH: Pos)
    requires imgW / imgH <= canvasW / canvasH
    ensures imgH * (canvasW / imgW) >= canvasH
  {
    assert imgW * canvasH <= canvasW * imgH by {
      assert imgW == (imgW / imgH) * imgH;
      assert canvasW == (canvasW / canvasH) * canvasH;
    }
    ScaledSide(imgH, imgW, canvasW);
  }

  /** The "cover" fit of `drawCanvas`: the drawing rectangle of an image of
      `imgW` by `imgH` on a canvas of `canvasW` by `canvasH`. */
  function CoverFit(imgW: Pos, imgH: Pos, canvasW: Pos, canvasH: Pos): DrawRect
  {
    if imgW / imgH > canvasW / canvasH then
      var drawW := imgW * (canvasH / imgH);
      DrawRect((canvasW - drawW) / 2.0, 0.0, drawW, canvasH)
    else
      var drawH := imgH * (canvasW / imgW);
      DrawRect(0.0, (canvasH - drawH) / 2.0, canvasW, drawH)
  }

  /** The cover fit keeps the image's aspect ratio, matches the canvas exactly
      on one axis (the height when the image is relatively wider, the width
      otherwise), covers it on the other, and is centred, so the offset on the
      overflowing axis is non-positive. */
  lemma CoverFitCovers(imgW: Pos, imgH: Pos, canvasW: Pos, canvasH: Pos)
    ensures var r := CoverFit(imgW, imgH, canvasW, canvasH);
            && r.width * imgH == r.height * imgW
            && (imgW / imgH > canvasW / canvasH ==> r.height == canvasH && r.width >= canvasW)
            && (imgW / imgH <= canvasW / canvasH ==> r.width == canvasW && r.height >= canvasH)
            && r.offsetX == (canvasW - r.width) / 2.0 && r.offsetY == (canvasH - r.height) / 2.0
            && r.offsetX <= 0.0 && r.offsetY <= 0.0
  {
    if imgW / imgH > canvasW / canvasH {
      WideOverflows(imgW, imgH, canvasW, canvasH);
      ScaledSide(imgW, imgH, canvasH);
    } else {
      TallOverflows(imgW, imgH, canvasW, canvasH);
      ScaledSide(imgH, imgW, canvasW);
    }
  }

  /** On the square poster canvas, a square image fills it exactly. */
  lemma SquareImageFillsCanvas(side: Pos)
    ensures CoverFit(side, side, CanvasSide, CanvasSide) == DrawRect(0.0, 0.0, CanvasSide, CanvasSide)
  {
    ScaledSide(side, side, CanvasSide);
  }

  // ---------------------------------------------------------------------------
  // Mask alpha inversion

  /** `data` with every alpha byte (index 3 mod 4) replaced by `255 - a`. */
  function InvertedAlpha(data: seq<byte>): (r: seq<byte>)
  {
    seq(|data|, i requires 0 <= i < |data| => if i % 4 == 3 then 255 - data[i] else data[i])
  }

  /** Inverting the alpha channel twice gives back the original pixels. */
  lemma InvertTwice(data: seq<byte>)
    ensures InvertedAlpha(InvertedAlpha(data)) == data
  {
  }

  /** The loop over `maskData.data`: four bytes at a time, the alpha byte of each
      pixel becomes `255 - a`. A write past the end of a typed array is dropped,
      so a trailing partial pixel is left alone. */
  method InvertAlpha(data: array<byte>)
    modifies data
    ensures data[..] == InvertedAlpha(old(data[..]))
  {
    var i := 0;
    while i < data.Length
      invariant 0 <= i && i % 4 == 0
      invariant i <= data.Length + 3
      invariant forall j :: 0 <= j < data.Length ==>
                  data[j] == (if j < i && j % 4 == 3 then 255 - old(data[j]) else old(data[j]))
    {
      if i + 3 < data.Length {
        data[i + 3] := 255 - data[i + 3];
      }
      i := i + 4;
    }
  }

  /** After inversion, the alpha of a mask pixel is 0 on the person and 255
      elsewhere, while its colour bytes stay white on the person and black
      elsewhere; `destination-in` then keeps the text where the mask is not the
      person, in the mask's own coordinates. */
  lemma InvertedMaskHidesSubject(seg: Segmentation, data: seq<byte>, p: nat, c: nat)
    requires |data| == 4 * seg.width * seg.height
    requires forall j :: 0 <= j < |data| ==> data[j] == MaskByte(seg, j)
    requires p < seg.width * seg.height && c < 4
    ensures c == 3 ==> InvertedAlpha(data)[4 * p + c] == (if SubjectPixel(seg, p) then 0 else 255)
    ensures c < 3 ==> InvertedAlpha(data)[4 * p + c] == (if SubjectPixel(seg, p) then 255 else 0)
  {
    MaskPixel(seg, p, c);
    assert (4 * p + c) % 4 == c;
  }

  // ---------------------------------------------------------------------------
  // Compositing path

  /** The four ways `drawCanvas` can compose the poster. */
  datatype Path =
    | GradientBackground          // no background image: gradient, text in front
    | MaskCutout                  // text masked off the person, person redrawn on top
    | BoundingBoxClip(box: Rect)  // text clipped out of the subject's box
    | TextInFront                 // background image with the text over it

  /** `detection?.hasHuman`. */
  predicate HasSubject(detection: Option<DetectionResult>)
  {
    detection.Some? && detection.value.hasHuman
  }

  /** The branch `drawCanvas` takes. The clip box is the detector's rectangle as
      is, in the coordinates the detector reported. */
  function SelectPath(hasImage: bool, mode: Preference, detection: Option<DetectionResult>, hasMask: bool): (p: Path)
    ensures p == GradientBackground <==> !hasImage
    ensures p == MaskCutout <==> hasImage && mode == Behind && HasSubject(detection) && hasMask
    ensures p.BoundingBoxClip? <==>
              hasImage && mode == Behind && HasSubject(detection) && !hasMask && detection.value.humanBounds.Some?
    ensures p.BoundingBoxClip? ==> p.box == detection.value.humanBounds.value
    ensures p == TextInFront <==>
              hasImage && !(mode == Behind && HasSubject(detection) && (hasMask || detection.value.humanBounds.Some?))
  {
    if !hasImage then GradientBackground
    else if mode == Behind && HasSubject(detection) && hasMask then MaskCutout
    else if mode == Behind && HasSubject(detection) && detection.value.humanBounds.Some? then
      BoundingBoxClip(detection.value.humanBounds.value)
    else TextInFront
  }

  /** The text is drawn with `isBehindHuman` set on the two cut-out paths. */
  predicate TextBehind(p: Path)
  {
    p.MaskCutout? || p.BoundingBoxClip?
  }

  /** The shadow the text gets on path `p`. */
  function PathShadow(p: Path): (s: Shadow)
    ensures TextBehind(p) ==> s == Shadow(0.9, 20.0, 4.0, 4.0)
    ensures !TextBehind(p) ==> s == Shadow(0.8, 10.0, 2.0, 2.0)
  {
    ShadowFor(TextBehind(p))
  }

  /** Only the explicit "behind" mode ever puts the text behind the subject. */
  lemma OnlyBehindModeCutsOut(hasImage: bool, mode: Preference, detection: Option<DetectionResult>, hasMask: bool)
    requires mode != Behind
    ensures !TextBehind(SelectPath(hasImage, mode, detection, hasMask))
    ensures hasImage ==> SelectPath(hasImage, mode, detection, hasMask) == TextInFront
  {
  }

  /** Without a detected subject, asking for the text behind draws exactly what
      asking for it in front draws. */
  lemma NoSubjectDegradesToFront(hasImage: bool, detection: Option<DetectionResult>, hasMask: bool)
    requires !HasSubject(detection)
    ensures SelectPath(hasImage, Behind, detection, hasMask) == SelectPath(hasImage, Front, detection, hasMask)
  {
  }

  /** A mask, when there is one, wins over the bounding box. */
  lemma MaskPreferred(detection: Option<DetectionResult>)
    requires HasSubject(detection)
    ensures SelectPath(true, Behind, detection, true) == MaskCutout
  {
  }
}
