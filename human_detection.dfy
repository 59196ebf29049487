/** Subject detection for text placement (src/utils/humanDetection.ts): the curated
    table of known backgrounds, the choice of a safe text area, the bounding-box
    result built from object-detector predictions, and the RGBA mask built from a
    person segmentation. The detector and the segmenter themselves are not modelled:
    their outputs are parameters. */
module HumanDetection {
  import opened Common

  datatype Rect = Rect(x: real, y: real, width: real, height: real)

  /** `HumanDetectionResult`. */
  datatype DetectionResult = DetectionResult(hasHuman: bool, humanBounds: Option<Rect>, safeTextAreas: seq<Rect>)

  /** Where `getOptimalTextPosition` puts the text. */
  datatype TextPlacement = TextPlacement(x: real, y: real, zIndex: int, behind: bool)

  datatype Preference = Behind | Front | Auto

  /** The canvas size the curated rectangles are expressed in. */
  const CanvasSize: real := 800.0

  /** The answer for a background without a curated entry. */
  const NoSubject: DetectionResult := DetectionResult(false, None, [Rect(50.0, 100.0, 700.0, 600.0)])

  /** One curated background: its id and its detection. */
  datatype Entry = Entry(key: string, detection: DetectionResult)

  /** The curated detections of the bundled backgrounds, in the order the table
      lists them; no id occurs twice. */
  const CuratedEntries: seq<Entry> := CuratedPart1 + CuratedPart2 + CuratedPart3 + CuratedPart4

  // The table, split in four parts so that each part is checked on its own.
  const CuratedPart1: seq<Entry> :=
    [
      Entry("football-action", DetectionResult(true, Some(Rect(280.0, 120.0, 240.0, 560.0)),
        [Rect(50.0, 80.0, 220.0, 300.0), Rect(530.0, 200.0, 220.0, 400.0)])),
      Entry("messi-action", DetectionResult(true, Some(Rect(280.0, 120.0, 240.0, 560.0)),
        [Rect(50.0, 80.0, 220.0, 300.0), Rect(530.0, 200.0, 220.0, 400.0)])),
      Entry("elon-musk", DetectionResult(true, Some(Rect(250.0, 120.0, 300.0, 580.0)),
        [Rect(50.0, 80.0, 190.0, 280.0), Rect(560.0, 200.0, 190.0, 380.0)])),
      Entry("elon-young", DetectionResult(true, Some(Rect(250.0, 120.0, 300.0, 580.0)),
        [Rect(50.0, 80.0, 190.0, 280.0), Rect(560.0, 200.0, 190.0, 380.0)])),
      Entry("mark-zuckerberg", DetectionResult(false, None, [Rect(50.0, 100.0, 700.0, 600.0)])),
      Entry("steve-jobs", DetectionResult(true, Some(Rect(180.0, 80.0, 440.0, 720.0)),
        [Rect(50.0, 60.0, 120.0, 280.0), Rect(630.0, 200.0, 120.0, 400.0)])),
      Entry("lebron-james", DetectionResult(false, None, [Rect(50.0, 100.0, 700.0, 600.0)])),
      Entry("batman", DetectionResult(false, None, [Rect(50.0, 100.0, 700.0, 600.0)])),
      Entry("fight-club", DetectionResult(false, None, [Rect(50.0, 100.0, 700.0, 600.0)])),
      Entry("fight-club-1", DetectionResult(false, None, [Rect(50.0, 100.0, 700.0, 600.0)]))
    ]

  const CuratedPart2: seq<Entry> :=
    [
      Entry("wolf-of-wall-street", DetectionResult(false, None, [Rect(50.0, 100.0, 700.0, 600.0)])),
      Entry("wolf-of-wall-street-1", DetectionResult(false, None, [Rect(50.0, 100.0, 700.0, 600.0)])),
      Entry("wolf-of-wall-street-2", DetectionResult(false, None, [Rect(50.0, 100.0, 700.0, 600.0)])),
      Entry("gym-beast", DetectionResult(true, Some(Rect(220.0, 70.0, 360.0, 730.0)),
        [Rect(50.0, 50.0, 170.0, 320.0), Rect(580.0, 180.0, 170.0, 380.0)])),
      Entry("deadlift-power", DetectionResult(true, Some(Rect(200.0, 100.0, 400.0, 600.0)),
        [Rect(50.0, 50.0, 150.0, 300.0), Rect(600.0, 200.0, 150.0, 400.0)])),
      Entry("crossfit-athlete", DetectionResult(true, Some(Rect(180.0, 100.0, 440.0, 700.0)),
        [Rect(50.0, 80.0, 130.0, 280.0), Rect(620.0, 200.0, 130.0, 350.0)])),
      Entry("ronaldo-celebration", DetectionResult(true, Some(Rect(300.0, 80.0, 200.0, 640.0)),
        [Rect(50.0, 50.0, 240.0, 350.0), Rect(510.0, 180.0, 240.0, 420.0)])),
      Entry("mbappe-speed", DetectionResult(true, Some(Rect(250.0, 100.0, 300.0, 600.0)),
        [Rect(50.0, 60.0, 190.0, 320.0), Rect(560.0, 220.0, 190.0, 380.0)])),
      Entry("footballer-focused", DetectionResult(true, Some(Rect(200.0, 90.0, 400.0, 710.0)),
        [Rect(50.0, 50.0, 140.0, 300.0), Rect(610.0, 180.0, 140.0, 420.0)])),
      Entry("football-celebration", DetectionResult(true, Some(Rect(250.0, 110.0, 300.0, 590.0)),
        [Rect(50.0, 70.0, 190.0, 300.0), Rect(560.0, 190.0, 190.0, 410.0)]))
    ]

  const CuratedPart3: seq<Entry> :=
    [
      Entry("football-intensity", DetectionResult(true, Some(Rect(200.0, 100.0, 400.0, 600.0)),
        [Rect(50.0, 80.0, 140.0, 280.0), Rect(610.0, 200.0, 140.0, 400.0)])),
      Entry("jobs-presenting", DetectionResult(true, Some(Rect(180.0, 80.0, 440.0, 720.0)),
        [Rect(50.0, 60.0, 120.0, 280.0), Rect(630.0, 200.0, 120.0, 400.0)])),
      Entry("sundar-confident", DetectionResult(true, Some(Rect(220.0, 100.0, 360.0, 600.0)),
        [Rect(50.0, 50.0, 160.0, 300.0), Rect(590.0, 180.0, 160.0, 420.0)])),
      Entry("bezos-confident", DetectionResult(true, Some(Rect(200.0, 90.0, 400.0, 710.0)),
        [Rect(50.0, 50.0, 140.0, 320.0), Rect(610.0, 220.0, 140.0, 380.0)])),
      Entry("gates-young", DetectionResult(true, Some(Rect(240.0, 110.0, 320.0, 590.0)),
        [Rect(50.0, 70.0, 180.0, 300.0), Rect(570.0, 190.0, 180.0, 410.0)])),
      Entry("tech-visionary", DetectionResult(true, Some(Rect(220.0, 100.0, 360.0, 600.0)),
        [Rect(50.0, 60.0, 160.0, 300.0), Rect(590.0, 200.0, 160.0, 400.0)])),
      Entry("runner-determination", DetectionResult(true, Some(Rect(250.0, 90.0, 300.0, 620.0)),
        [Rect(50.0, 70.0, 190.0, 300.0), Rect(560.0, 190.0, 190.0, 420.0)])),
      Entry("boxing-fighter", DetectionResult(true, Some(Rect(180.0, 60.0, 440.0, 740.0)),
        [Rect(50.0, 80.0, 130.0, 250.0), Rect(620.0, 150.0, 130.0, 350.0)])),
      Entry("gym-grind", DetectionResult(true, Some(Rect(240.0, 80.0, 320.0, 640.0)),
        [Rect(50.0, 60.0, 180.0, 320.0), Rect(570.0, 180.0, 180.0, 400.0)])),
      Entry("athlete-boxer", DetectionResult(true, Some(Rect(200.0, 100.0, 400.0, 600.0)),
        [Rect(50.0, 50.0, 150.0, 300.0), Rect(600.0, 200.0, 150.0, 400.0)]))
    ]

  const CuratedPart4: seq<Entry> :=
    [
      Entry("focused-athlete", DetectionResult(true, Some(Rect(150.0, 80.0, 500.0, 720.0)),
        [Rect(50.0, 50.0, 100.0, 200.0), Rect(650.0, 100.0, 100.0, 300.0)])),
      Entry("determined-man", DetectionResult(true, Some(Rect(250.0, 50.0, 300.0, 750.0)),
        [Rect(50.0, 100.0, 200.0, 400.0), Rect(550.0, 150.0, 200.0, 350.0)])),
      Entry("strong-woman", DetectionResult(true, Some(Rect(200.0, 80.0, 400.0, 720.0)),
        [Rect(50.0, 50.0, 150.0, 300.0), Rect(600.0, 200.0, 150.0, 400.0)])),
      Entry("warrior-spirit", DetectionResult(true, Some(Rect(180.0, 60.0, 440.0, 740.0)),
        [Rect(50.0, 80.0, 130.0, 250.0), Rect(620.0, 150.0, 130.0, 350.0)])),
      Entry("success-mindset", DetectionResult(true, Some(Rect(220.0, 100.0, 360.0, 600.0)),
        [Rect(50.0, 50.0, 170.0, 300.0), Rect(580.0, 200.0, 170.0, 400.0)])),
      Entry("business-leader", DetectionResult(true, Some(Rect(200.0, 80.0, 400.0, 720.0)),
        [Rect(50.0, 100.0, 150.0, 300.0), Rect(600.0, 200.0, 150.0, 400.0)])),
      Entry("confident-woman", DetectionResult(true, Some(Rect(250.0, 60.0, 300.0, 740.0)),
        [Rect(50.0, 50.0, 200.0, 350.0), Rect(550.0, 150.0, 200.0, 400.0)])),
      Entry("urban-athlete", DetectionResult(true, Some(Rect(180.0, 100.0, 440.0, 700.0)),
        [Rect(50.0, 80.0, 130.0, 280.0), Rect(620.0, 200.0, 130.0, 350.0)])),
      Entry("fitness-model", DetectionResult(true, Some(Rect(220.0, 70.0, 360.0, 730.0)),
        [Rect(50.0, 50.0, 170.0, 320.0), Rect(580.0, 180.0, 170.0, 380.0)])),
      Entry("entrepreneur", DetectionResult(true, Some(Rect(200.0, 90.0, 400.0, 710.0)),
        [Rect(50.0, 50.0, 140.0, 320.0), Rect(610.0, 220.0, 140.0, 380.0)])),
      Entry("focused-woman", DetectionResult(true, Some(Rect(240.0, 80.0, 320.0, 640.0)),
        [Rect(50.0, 60.0, 180.0, 320.0), Rect(570.0, 180.0, 180.0, 400.0)]))
    ]

  /** `key in humanBackgrounds` as an index: the first entry with that id, or
      `|entries|` when there is none. */
  function KeyIndex(entries: seq<Entry>, key: string): (i: nat)
    ensures i <= |entries|
    ensures i < |entries| ==> entries[i].key == key
    ensures forall j :: 0 <= j < i ==> entries[j].key != key
  {
    if |entries| == 0 then 0
    else if entries[0].key == key then 0
    else 1 + KeyIndex(entries[1..], key)
  }

  /** The shape every detection result is meant to have: a subject comes with its
      bounds and two safe areas, no subject with no bounds and one area. */
  predicate WellShaped(d: DetectionResult)
  {
    if d.hasHuman then d.humanBounds.Some? && |d.safeTextAreas| == 2
    else d.humanBounds.None? && |d.safeTextAreas| == 1
  }

  predicate InsideCanvas(r: Rect)
  {
    && 0.0 <= r.x && 0.0 <= r.y && 0.0 <= r.width && 0.0 <= r.height
    && r.x + r.width <= CanvasSize && r.y + r.height <= CanvasSize
  }

  /** The two safe areas lie in the canvas, the first wholly left of the subject
      and the second wholly right of it. */
  predicate AreasBesideSubject(d: DetectionResult)
    requires d.hasHuman && WellShaped(d)
  {
    var b := d.humanBounds.value;
    var left := d.safeTextAreas[0];
    var right := d.safeTextAreas[1];
    && InsideCanvas(b) && InsideCanvas(left) && InsideCanvas(right)
    && left.x + left.width <= b.x && b.x + b.width <= right.x
  }

  /** Every curated entry is well shaped, and the safe areas of every curated
      subject are clear of it. */
  lemma CuratedTableWellFormed()
    ensures forall i :: 0 <= i < |CuratedEntries| ==> WellShaped(CuratedEntries[i].detection)
    ensures forall i :: 0 <= i < |CuratedEntries| && CuratedEntries[i].detection.hasHuman ==>
              AreasBesideSubject(CuratedEntries[i].detection)
  {
    CuratedPart1WellFormed();
    CuratedPart2WellFormed();
    CuratedPart3WellFormed();
    CuratedPart4WellFormed();
    AllWellFormedConcat(CuratedPart1, CuratedPart2);
    AllWellFormedConcat(CuratedPart1 + CuratedPart2, CuratedPart3);
    AllWellFormedConcat(CuratedPart1 + CuratedPart2 + CuratedPart3, CuratedPart4);
    assert forall i :: 0 <= i < |CuratedEntries| ==> EntryWellFormed(CuratedEntries[i]);
  }

  /** A curated entry is well shaped, with its areas beside its subject. */
  predicate EntryWellFormed(e: Entry)
  {
    WellShaped(e.detection) && (e.detection.hasHuman ==> AreasBesideSubject(e.detection))
  }

  predicate AllWellFormed(entries: seq<Entry>)
  {
    forall i :: 0 <= i < |entries| ==> EntryWellFormed(entries[i])
  }

  /** Each part of the table is well formed. */
  lemma CuratedPart1WellFormed()
    ensures AllWellFormed(CuratedPart1)
  {
  }

  lemma CuratedPart2WellFormed()
    ensures AllWellFormed(CuratedPart2)
  {
  }

  lemma CuratedPart3WellFormed()
    ensures AllWellFormed(CuratedPart3)
  {
  }

  lemma CuratedPart4WellFormed()
    ensures AllWellFormed(CuratedPart4)
  {
  }

  lemma AllWellFormedConcat(a: seq<Entry>, b: seq<Entry>)
    requires AllWellFormed(a) && AllWellFormed(b)
    ensures AllWellFormed(a + b)
  {
    forall i | 0 <= i < |a + b|
      ensures EntryWellFormed((a + b)[i])
    {
      if i >= |a| {
        assert (a + b)[i] == b[i - |a|];
      }
    }
  }

  /** `detectHumanInBackground(key)`: the curated entry, or one full safe area
      and no subject for an unknown key. Every answer is well shaped, with the
      safe areas of a subject beside it. */
  function DetectHumanInBackground(key: string): (r: DetectionResult)
    ensures var i := KeyIndex(CuratedEntries, key);
            i < |CuratedEntries| ==> r == CuratedEntries[i].detection
    ensures KeyIndex(CuratedEntries, key) == |CuratedEntries| ==>
              !r.hasHuman && r.humanBounds == None && r.safeTextAreas == [Rect(50.0, 100.0, 700.0, 600.0)]
    ensures WellShaped(r)
    ensures r.hasHuman ==> AreasBesideSubject(r)
  {
    CuratedTableWellFormed();
    var i := KeyIndex(CuratedEntries, key);
    if i < |CuratedEntries| then CuratedEntries[i].detection else NoSubject
  }

  predicate Fits(area: Rect, textWidth: real, textHeight: real)
  {
    area.width >= textWidth && area.height >= textHeight
  }

  /** `areas.find(fits)` as an index: the first area that fits, or `|areas|`. */
  function FirstFit(areas: seq<Rect>, textWidth: real, textHeight: real): (i: nat)
    ensures i <= |areas|
    ensures i < |areas| ==> Fits(areas[i], textWidth, textHeight)
    ensures forall j :: 0 <= j < i ==> !Fits(areas[j], textWidth, textHeight)
  {
    if |areas| == 0 then 0
    else if Fits(areas[0], textWidth, textHeight) then 0
    else 1 + FirstFit(areas[1..], textWidth, textHeight)
  }

  /** The placement rule of `getOptimalTextPosition` for the detection `d`: in
      front at (60, 180) when there is no subject or the user wants the text in
      front; otherwise behind the subject, 20 right of and 50 below the corner of
      the first safe area large enough for the text, or of the first safe area
      when none is. As the areas lie in the canvas, a text behind a subject
      starts at most 20 right of and 50 below the canvas's extent. */
  function PlaceText(d: DetectionResult, textWidth: real, textHeight: real, pref: Preference): (r: TextPlacement)
    requires WellShaped(d) && (d.hasHuman ==> AreasBesideSubject(d))
    ensures !d.hasHuman || pref == Front ==> r == TextPlacement(60.0, 180.0, 2, false)
    ensures var areas := d.safeTextAreas;
            var i := FirstFit(areas, textWidth, textHeight);
            d.hasHuman && pref != Front ==>
              && |areas| > 0 && r.zIndex == 0 && r.behind
              && (i < |areas| ==> r.x == areas[i].x + 20.0 && r.y == areas[i].y + 50.0)
              && (i == |areas| ==> r.x == areas[0].x + 20.0 && r.y == areas[0].y + 50.0)
    ensures r.behind ==> 20.0 <= r.x <= CanvasSize + 20.0 && 50.0 <= r.y <= CanvasSize + 50.0
  {
    if !d.hasHuman || pref == Front then TextPlacement(60.0, 180.0, 2, false)
    else
      var i := FirstFit(d.safeTextAreas, textWidth, textHeight);
      var best := if i < |d.safeTextAreas| then d.safeTextAreas[i] else d.safeTextAreas[0];
      assert InsideCanvas(best) by {
        assert InsideCanvas(d.safeTextAreas[0]) && InsideCanvas(d.safeTextAreas[1]);
      }
      TextPlacement(best.x + 20.0, best.y + 50.0, 0, true)
  }

  /** `getOptimalTextPosition(key, ...)`: the text goes behind exactly when the
      background has a curated subject and the user did not ask for the front. */
  function GetOptimalTextPosition(key: string, textWidth: real, textHeight: real, pref: Preference): (r: TextPlacement)
    ensures r.behind <==> DetectHumanInBackground(key).hasHuman && pref != Front
    ensures r.behind ==> r.zIndex == 0
    ensures !r.behind ==> r == TextPlacement(60.0, 180.0, 2, false)
  {
    PlaceText(DetectHumanInBackground(key), textWidth, textHeight, pref)
  }

  // ---------------------------------------------------------------------------
  // Object-detector fallback (`detectHumanInBackgroundAuto`)

  /** A detector box `[x, y, width, height]` in image pixels. */
  datatype BBox = BBox(x: real, y: real, width: real, height: real)

  /** One object-detector prediction. */
  datatype Prediction = Prediction(kind: string, bbox: BBox, score: real)

  predicate IsSubjectClass(c: string)
  {
    c == "person" || c == "cat" || c == "dog" || c == "bird"
  }

  /** `predictions.find(isSubject)` as an index: the first person or animal, or
      `|predictions|`. */
  function FirstSubject(predictions: seq<Prediction>): (i: nat)
    ensures i <= |predictions|
    ensures i < |predictions| ==> IsSubjectClass(predictions[i].kind)
    ensures forall j :: 0 <= j < i ==> !IsSubjectClass(predictions[j].kind)
  {
    if |predictions| == 0 then 0
    else if IsSubjectClass(predictions[0].kind) then 0
    else 1 + FirstSubject(predictions[1..])
  }

  /** The object-detector fallback of `detectHumanInBackgroundAuto`, given the
      curated answer `legacy` and the detector's `predictions` for an image of
      `imageWidth` by `imageHeight`. A curated subject is returned as is.
      Otherwise the first person or animal becomes the subject, with a left strip
      from the image's left edge to the box and a right strip from the box to the
      image's right edge, both of full height; with no such prediction there is
      no subject and one area inset by 50 (sides) and 100 (top and bottom). */
  function DetectFromPredictions(legacy: DetectionResult, predictions: seq<Prediction>,
                                 imageWidth: real, imageHeight: real): (r: DetectionResult)
    requires WellShaped(legacy)
    ensures legacy.hasHuman ==> r == legacy
    ensures var i := FirstSubject(predictions);
            !legacy.hasHuman && i < |predictions| ==>
              var b := predictions[i].bbox;
              && r.hasHuman && r.humanBounds == Some(Rect(b.x, b.y, b.width, b.height))
              && |r.safeTextAreas| == 2
              && var left := r.safeTextAreas[0];
                 var right := r.safeTextAreas[1];
                 && left.x == 0.0 && left.y == 0.0 && left.height == imageHeight
                 && left.x + left.width == b.x
                 && right.x == b.x + b.width && right.y == 0.0 && right.height == imageHeight
                 && right.x + right.width == imageWidth
                 && left.width + b.width + right.width == imageWidth
    ensures !legacy.hasHuman && FirstSubject(predictions) == |predictions| ==>
              r == DetectionResult(false, None, [Rect(50.0, 100.0, imageWidth - 100.0, imageHeight - 200.0)])
    ensures WellShaped(r)
  {
    if legacy.hasHuman then legacy
    else
      var i := FirstSubject(predictions);
      if i < |predictions| then
        var b := predictions[i].bbox;
        DetectionResult(true, Some(Rect(b.x, b.y, b.width, b.height)),
          [Rect(0.0, 0.0, b.x, imageHeight), Rect(b.x + b.width, 0.0, imageWidth - (b.x + b.width), imageHeight)])
      else
        DetectionResult(false, None, [Rect(50.0, 100.0, imageWidth - 100.0, imageHeight - 200.0)])
  }

  /** `detectHumanInBackgroundAuto`: the curated answer when it has a subject,
      whatever the detector returned; otherwise the detector fallback. */
  function DetectHumanInBackgroundAuto(key: string, predictions: seq<Prediction>,
                                       imageWidth: real, imageHeight: real): (r: DetectionResult)
    ensures DetectHumanInBackground(key).hasHuman ==> r == DetectHumanInBackground(key)
    ensures !DetectHumanInBackground(key).hasHuman ==>
              r == DetectFromPredictions(DetectHumanInBackground(key), predictions, imageWidth, imageHeight)
    ensures WellShaped(r)
  {
    DetectFromPredictions(DetectHumanInBackground(key), predictions, imageWidth, imageHeight)
  }

  /** For a curated subject the detector's predictions are never consulted. */
  lemma CuratedSubjectIgnoresPredictions(key: string, p: seq<Prediction>, q: seq<Prediction>, w: real, h: real)
    requires DetectHumanInBackground(key).hasHuman
    ensures DetectHumanInBackgroundAuto(key, p, w, h) == DetectHumanInBackgroundAuto(key, q, w, h)
  {
  }

  /** Predictions that are neither people nor animals do not matter: putting
      them first leaves the result unchanged. */
  lemma NonSubjectsIgnored(legacy: DetectionResult, junk: seq<Prediction>, rest: seq<Prediction>, w: real, h: real)
    requires WellShaped(legacy)
    requires forall j :: 0 <= j < |junk| ==> !IsSubjectClass(junk[j].kind)
    ensures DetectFromPredictions(legacy, junk + rest, w, h) == DetectFromPredictions(legacy, rest, w, h)
  {
    FirstSubjectSkips(junk, rest);
    var i := FirstSubject(rest);
    if i < |rest| {
      assert (junk + rest)[|junk| + i] == rest[i];
    }
  }

  lemma {:induction false} FirstSubjectSkips(junk: seq<Prediction>, rest: seq<Prediction>)
    requires forall j :: 0 <= j < |junk| ==> !IsSubjectClass(junk[j].kind)
    ensures FirstSubject(junk + rest) == |junk| + FirstSubject(rest)
  {
    if |junk| > 0 {
      assert (junk + rest)[1..] == junk[1..] + rest;
      FirstSubjectSkips(junk[1..], rest);
    } else {
      assert junk + rest == rest;
    }
  }

  // ---------------------------------------------------------------------------
  // Segmentation mask (`detectHumanMaskInImage`)

  /** A person segmentation: one entry per pixel, 1 on the person. */
  datatype Segmentation = Segmentation(width: PosNat, height: PosNat, data: seq<int>)

  /** `ImageData`: RGBA bytes, four per pixel, row-major. */
  datatype ImageData = ImageData(width: nat, height: nat, data: seq<byte>)

  /** Pixel `p` is on the person; a missing entry reads as `undefined`, not 1. */
  predicate SubjectPixel(seg: Segmentation, p: nat)
  {
    p < |seg.data| && seg.data[p] == 1
  }

  /** Byte `j` of the mask: all four channels 255 on the person, 0 elsewhere. */
  function MaskByte(seg: Segmentation, j: nat): byte
  {
    if SubjectPixel(seg, j / 4) then 255 else 0
  }

  /** `detectHumanMaskInImage` after segmentation: no mask without a segmentation;
      otherwise an RGBA image of the segmentation's size whose pixels are opaque
      white on the person and transparent black elsewhere. */
  method DetectHumanMaskInImage(segmentation: Option<Segmentation>) returns (mask: Option<ImageData>)
    ensures segmentation.None? ==> mask.None?
    ensures segmentation.Some? ==>
              var seg := segmentation.value;
              && mask.Some?
              && mask.value.width == seg.width && mask.value.height == seg.height
              && |mask.value.data| == 4 * seg.width * seg.height
              && forall j :: 0 <= j < |mask.value.data| ==> mask.value.data[j] == MaskByte(seg, j)
  {
    if segmentation.None? {
      return None;
    }
    var seg := segmentation.value;
    var n := seg.width * seg.height;
    var data := new byte[n * 4];
    var i := 0;
    while i < n
      invariant 0 <= i <= n
      invariant forall j :: 0 <= j < 4 * i ==> data[j] == MaskByte(seg, j)
    {
      if i < |seg.data| && seg.data[i] == 1 {
        data[i * 4 + 0] := 255;
        data[i * 4 + 1] := 255;
        data[i * 4 + 2] := 255;
        data[i * 4 + 3] := 255;
      } else {
        data[i * 4 + 0] := 0;
        data[i * 4 + 1] := 0;
        data[i * 4 + 2] := 0;
        data[i * 4 + 3] := 0;
      }
      i := i + 1;
    }
    mask := Some(ImageData(seg.width, seg.height, data[..]));
  }

  /** All four channels of a mask pixel agree with the segmentation. */
  lemma MaskPixel(seg: Segmentation, p: nat, c: nat)
    requires c < 4
    ensures MaskByte(seg, 4 * p + c) == (if SubjectPixel(seg, p) then 255 else 0)
  {
    assert (4 * p + c) / 4 == p;
  }
}
