# jeta poster generator — verified model of the core decisions

jeta is a browser poster generator. It composites a motivational quote onto a
background photograph. If the background shows a person, the text can go
"behind" them: a segmentation mask or the person's bounding box cuts the text
out where the person stands. A batch mode makes many posters from a shuffled
catalog and zips them. An editor page keeps a list of styled quote blocks.

This project models the deterministic logic behind those features in Dafny and
proves what that logic guarantees. Canvases, ML models, the random number
generator and the network are inputs or are left out.

The model is split into modules:

- `Common` (common.dfy): `Option`, the `byte` of a `Uint8ClampedArray`, and
  positive sizes.
- `JsString` (js_string.dfy): the JavaScript string built-ins the code relies
  on, stated on `seq<char>`. These are `split`/`join` on one character,
  `replace(/c/g, d)`, `toLowerCase`, `includes`, `trim`, and the decimal
  rendering of a counter.
- `TextLayout` (text_layout.dfy): text layout in `drawEnhancedText`. It covers
  the line split for each layout mode, the greedy `wrapText` loop, the vertical
  placement of the block, the glyph positions under letter spacing, the canvas
  font weight and the shadow.
- `HumanDetection` (human_detection.dfy): the curated detection table, the
  choice of a safe text area, and the result built from object-detector
  predictions. It also builds the RGBA mask from a 0/1 segmentation, in a loop
  over an array.
- `Compositor` (compositor.dfy): the compositing decisions of `drawCanvas`. It
  covers the mode taken from the prop, the cover fit, the in-place alpha
  inversion of the mask, the choice of compositing path and the shadow on each
  path.
- `MassGeneration` (mass_generation.dfy): the batch generator. It covers quote
  cycling, the shuffle as a sequence of exchanges, the generation loop with its
  skips and published snapshots, the fallback of the remote quote service on a
  modelled JSON value, and the file names of the downloads and the zip.
- `SingleCreation` (single_creation.dfy): quote-list editing (add, remove,
  update, move; ids are parameters). It also covers the weights offered for a
  font and the font search.

Widths and coordinates are `real`, so the arithmetic is exact.
`CanvasRenderingContext2D.measureText` is an arbitrary function
`string -> real`. The predictions of the object detector, the person
segmentation, the outcome of each image load and the existence of each 2D
context are parameters.

Points where the code behaves in a way a reader might not expect, kept as
written:

- Neither `detectHumanInBackgroundAuto` nor `detectHumanMaskInImage` catches an
  error of the ML models. Such an error rejects the asynchronous `img.onload`
  handler that awaits them (src/components/ImageGenerator.tsx:138-160), which
  does not catch it either. The model has no error path for them.
- `generateVariations` always takes its quotes from the curated two-line list.
  It never calls `fetchLLMQuote`, which is modelled on its own as
  `FetchLLMQuote`.
- The bounding-box clip uses the detector's rectangle unchanged. That rectangle
  is in image pixels, but it is used as canvas coordinates.
- The mask path stretches the person mask over the whole canvas
  (src/components/ImageGenerator.tsx:247), while the photo is drawn cover-fit at
  `(offsetX, offsetY, drawW, drawH)` (lines 224 and 258). When the image's
  aspect ratio differs from the canvas's, the cut-out silhouette and the person
  in the photo do not line up. The model states which pixels the inverted mask
  clears in mask coordinates only.

## Model

| member | source | states |
|---|---|---|
| JsString.Split | src/components/ImageGenerator.tsx:398 | `text.split('\n')` yields one more piece than there are separators, no piece holds the separator, and joining the pieces with it gives back the text |
| JsString.JoinSnoc | src/components/ImageGenerator.tsx:458 | joining one more part adds the separator and that part (the wrap loop's line extension) |
| JsString.ReplaceAll | src/components/ImageGenerator.tsx:395 | `replace(/\n/g, ' ')` keeps the length and changes exactly the newline positions |
| JsString.ToLower | src/components/MassGeneration.tsx:285 | lower-casing keeps the length, maps each character, and leaves no upper-case ASCII letter |
| JsString.TrimStart | src/components/MassGeneration.tsx:153 | `trimStart()` drops exactly the leading whitespace: the result is a suffix of the string, everything cut is whitespace, and it does not start with whitespace |
| JsString.TrimEnd | src/components/MassGeneration.tsx:153 | `trimEnd()` drops exactly the trailing whitespace: the result is a prefix of the string, everything cut is whitespace, and it does not end with whitespace |
| JsString.Trim | src/components/MassGeneration.tsx:153 | `trim()` returns the block of the string between leading and trailing whitespace; it neither starts nor ends with whitespace and everything removed is whitespace |
| JsString.TrimIdempotent | src/components/MassGeneration.tsx:153 | trimming twice equals trimming once |
| JsString.DecimalString | src/components/MassGeneration.tsx:320 | `${n}` is a non-empty string of decimal digits |
| JsString.DecimalRoundTrip | src/components/MassGeneration.tsx:320 | reading back the decimal rendering of n gives n |
| JsString.DecimalInjective | src/components/MassGeneration.tsx:330 | distinct counters render differently |
| TextLayout.FirstWordOfWord | src/components/ImageGenerator.tsx:453 | the first space-separated word of a word is the word itself |
| TextLayout.FirstWordExtend | src/components/ImageGenerator.tsx:458 | extending a line with more words keeps its first word |
| TextLayout.JoinExtendLast | src/components/ImageGenerator.tsx:465 | appending a word to the last line appends it, after a space, to the joined text |
| TextLayout.GreedyPush | src/components/ImageGenerator.tsx:461-462 | pushing a line that the previously pushed line could not absorb (its first word would overflow) keeps the list of lines greedy |
| TextLayout.WrapPushStep | src/components/ImageGenerator.tsx:461-463 | pushing the current line and starting a new one with the word preserves the wrap invariant, including the greedy condition that the pushed line could not take the next word |
| TextLayout.WrapExtendStep | src/components/ImageGenerator.tsx:464-465 | extending the current line with the word preserves the wrap invariant |
| TextLayout.WrapFinish | src/components/ImageGenerator.tsx:469-473 | pushing a non-empty last line turns the invariant into the full wrap specification |
| TextLayout.WrapWords | src/components/ImageGenerator.tsx:454-473 | over words that contain no space, the loop gives at most one line per word and no empty line; a line wider than `maxWidth` is one of the words; the lone empty word gives no line; when no word is empty the lines rejoin with spaces to the words and are greedy |
| TextLayout.WrapOfWordsWrapsText | src/components/ImageGenerator.tsx:453 | a wrap of the pieces of `text.split(' ')` is a wrap of the text itself |
| TextLayout.WrapText | src/components/ImageGenerator.tsx:452-474 | greedy wrap: no lines for the empty text; lines never exceed the words in number and are never empty; a line wider than `maxWidth` is a single word, so words are never broken; when no word is empty, joining the lines with spaces gives back the text, and no line could have taken the next line's first word |
| TextLayout.LayoutLines | src/components/ImageGenerator.tsx:393-403 | single-line mode gives one line equal to the text with newlines turned into spaces; multi-line gives newline-count + 1 lines that rejoin with `'\n'` to the text; auto-wrap gives the greedy wrap |
| TextLayout.Baselines | src/components/ImageGenerator.tsx:405-412 | n baselines, the first at the start, each one pitch below the previous; the block from the first baseline to the bottom of the last line spans n line heights and n−1 gaps |
| TextLayout.LineBaselines | src/components/ImageGenerator.tsx:405-414 | one baseline per line, consecutive baselines one line height plus line spacing apart; under centre alignment `y` is the block's vertical centre (first baseline + total/2 = y), otherwise the first baseline is `y`; the block from first baseline to last line's bottom spans `n*lineHeight + (n-1)*lineSpacing` |
| TextLayout.BaselineArithmetic | src/components/ImageGenerator.tsx:406 | evenly spaced baselines span n line heights and n-1 gaps |
| TextLayout.BaselineOfLine | src/components/ImageGenerator.tsx:414 | line k is drawn at `startY + k*(lineHeight + lineSpacing)` |
| TextLayout.DrawTextWithLetterSpacing | src/components/ImageGenerator.tsx:476-501 | glyph k is placed at the run's start plus the widths and spacings of the glyphs before it; the run starts at `x - total/2` for centre, `x - total` for right, `x` otherwise, with total = Σ(width + ls) − ls |
| TextLayout.GlyphRunAnchored | src/components/ImageGenerator.tsx:485-495 | the spaced run is centred on `x`, ends at `x`, or starts at `x` according to the alignment, and spans exactly the spaced width |
| TextLayout.TwoGlyphsCentred | src/components/ImageGenerator.tsx:486-489 | a centred two-glyph run with spacing 2 places its glyphs symmetrically about `x` |
| TextLayout.CanvasFontWeight | src/components/ImageGenerator.tsx:367 | weights of 700 and above are drawn as 900, lower weights as given |
| TextLayout.ShadowFor | src/components/ImageGenerator.tsx:378-389 | text behind a subject gets shadow (0.9, 20, 4, 4), text in front (0.8, 10, 2, 2) |
| TextLayout.DrawEnhancedText | src/components/ImageGenerator.tsx:359-450 | the lines follow the layout mode, the shadow follows `isBehindHuman`, and each line is drawn once at its baseline, whole when letter spacing is 0 and glyph by glyph otherwise |
| HumanDetection.KeyIndex | src/utils/humanDetection.ts:311 | the lookup finds the first entry with the key, or reports that none has it |
| HumanDetection.CuratedTableWellFormed | src/utils/humanDetection.ts:27-309 | every curated subject has bounds and two safe areas, every entry without one has no bounds and one area; the areas of a subject lie in the canvas, one left and one right of it |
| HumanDetection.DetectHumanInBackground | src/utils/humanDetection.ts:311-314 | a curated key yields its entry; an unknown key yields no subject, no bounds and the single area (50, 100, 700, 600); every answer is well shaped |
| HumanDetection.FirstFit | src/utils/humanDetection.ts:331-333 | the index of the first safe area at least as wide and as tall as the text, or "none fits" |
| HumanDetection.PlaceText | src/utils/humanDetection.ts:325-340 | no subject or preference "front" gives (60, 180, z 2, in front); otherwise behind at z 0, 20 right of and 50 below the first area that fits, or the first area when none fits; a behind placement has 20 ≤ x ≤ 820 and 50 ≤ y ≤ 850 |
| HumanDetection.GetOptimalTextPosition | src/utils/humanDetection.ts:317-344 | the text goes behind exactly when the background has a curated subject and the preference is not "front" |
| HumanDetection.FirstSubject | src/utils/humanDetection.ts:357-359 | the index of the first person, cat, dog or bird prediction, taken in order |
| HumanDetection.DetectFromPredictions | src/utils/humanDetection.ts:348-374 | a curated subject is returned unchanged; otherwise the first person or animal becomes the subject, with full-height strips from the left edge to the box and from the box to the right edge whose widths with the box's add up to the image width; without one there is no subject and one area (50, 100, W−100, H−200) |
| HumanDetection.DetectHumanInBackgroundAuto | src/utils/humanDetection.ts:346-349 | a curated subject is returned as is, otherwise the detector predictions decide; every result is well shaped |
| HumanDetection.CuratedSubjectIgnoresPredictions | src/utils/humanDetection.ts:348-349 | for a curated subject the detector's predictions do not matter |
| HumanDetection.NonSubjectsIgnored | src/utils/humanDetection.ts:357-359 | predictions that are neither people nor animals placed first do not change the result |
| HumanDetection.FirstSubjectSkips | src/utils/humanDetection.ts:357-359 | skipping non-subject predictions shifts the found index by their number |
| HumanDetection.DetectHumanMaskInImage | src/utils/humanDetection.ts:386-403 | no segmentation gives no mask; otherwise a mask of the segmentation's size with `4*w*h` bytes, all four bytes of pixel i 255 when `data[i] === 1` and 0 otherwise |
| HumanDetection.MaskPixel | src/utils/humanDetection.ts:391-400 | the four channels of a mask pixel agree with the segmentation |
| Compositor.ModeFromProp | src/components/ImageGenerator.tsx:86-92 | `true` means behind, `false` front, an absent prop automatic placement, and nothing else maps to each mode |
| Compositor.CoverFitCovers | src/components/ImageGenerator.tsx:204-221 | the drawn image keeps its aspect ratio, matches the canvas on the height when relatively wider and on the width otherwise, covers the other axis, and is centred with non-positive offsets `(canvas − draw)/2` |
| Compositor.WideOverflows | src/components/ImageGenerator.tsx:211-215 | a relatively wider image scaled to the canvas height overflows its width |
| Compositor.TallOverflows | src/components/ImageGenerator.tsx:216-221 | a relatively taller image scaled to the canvas width covers its height |
| Compositor.SquareImageFillsCanvas | src/components/ImageGenerator.tsx:204-221 | a square image fills the square canvas exactly |
| Compositor.InvertAlpha | src/components/ImageGenerator.tsx:242-244 | the loop leaves the buffer with every alpha byte `a` replaced by `255 − a` and every colour byte unchanged |
| Compositor.InvertTwice | src/components/ImageGenerator.tsx:242-244 | inverting the alpha channel twice is the identity |
| Compositor.InvertedMaskHidesSubject | src/components/ImageGenerator.tsx:242-247 | after inversion the person mask has alpha 0 on the person's pixels and 255 elsewhere, with its colour bytes unchanged |
| Compositor.SelectPath | src/components/ImageGenerator.tsx:200-344 | no image gives the gradient path; the mask path runs iff mode is behind, there is a subject and a mask; the bounding-box path iff behind, a subject, no mask and bounds, with the detector's box unchanged; otherwise the text goes in front |
| Compositor.PathShadow | src/components/ImageGenerator.tsx:234-344 | the two cut-out paths draw the text with the behind shadow, the others with the front shadow |
| Compositor.OnlyBehindModeCutsOut | src/components/ImageGenerator.tsx:227 | automatic and front modes never cut the text out |
| Compositor.NoSubjectDegradesToFront | src/components/ImageGenerator.tsx:281-301 | without a detected subject, behind mode takes the same path as front mode |
| Compositor.MaskPreferred | src/components/ImageGenerator.tsx:227 | with a subject and a mask, behind mode uses the mask rather than the box |
| MassGeneration.QuotesToUse | src/components/MassGeneration.tsx:214-216 | one quote per requested image, entry i being reference quote i mod the list's length |
| MassGeneration.QuotesPrefix | src/components/MassGeneration.tsx:214-216 | up to the list's length the quotes are the list in order |
| MassGeneration.QuotesRepeat | src/components/MassGeneration.tsx:214-216 | beyond it the quotes repeat, with the length of the reference list as period |
| MassGeneration.Exchange | src/components/MassGeneration.tsx:210 | one exchange of two positions swaps them, keeps the rest and permutes the list |
| MassGeneration.Shuffle | src/components/MassGeneration.tsx:210 | the shuffled catalog has the catalog's length and is a permutation of it |
| MassGeneration.ShuffledFromCatalog | src/components/MassGeneration.tsx:210 | every background of the shuffled catalog comes from the catalog |
| MassGeneration.PosterFor | src/components/MassGeneration.tsx:272-301 | a poster shows its background and draws the top line lowercased at (400, 370) in 54px weight 700 and the bottom line lowercased at (400, 470) in 86px weight 900, each keeping its length |
| MassGeneration.PosterCoversCanvas | src/components/MassGeneration.tsx:237-252 | the background keeps its aspect ratio, covers the 800 by 800 canvas on both axes and is centred |
| MassGeneration.Generated | src/components/MassGeneration.tsx:218-308 | each iteration adds at most one poster |
| MassGeneration.GeneratedFromVisited | src/components/MassGeneration.tsx:219 | every poster shows one of the backgrounds the loop visited |
| MassGeneration.AllSucceed | src/components/MassGeneration.tsx:218-307 | when every iteration succeeds, poster k shows background k with quote k |
| MassGeneration.FailureAddsNothing | src/components/MassGeneration.tsx:225-235 | an iteration without a 2D context or with a failed image load adds nothing |
| MassGeneration.GeneratedSkip | src/components/MassGeneration.tsx:224-235 | an iteration without a 2D context or with a failed image load leaves the posters as they were |
| MassGeneration.GeneratedAppend | src/components/MassGeneration.tsx:237-307 | a successful iteration appends the poster for its background, its quote and the size of its image |
| MassGeneration.History | src/components/MassGeneration.tsx:307-308 | one published list per poster, plus the initial empty one |
| MassGeneration.HistoryPrefixes | src/components/MassGeneration.tsx:206-308 | published list k holds exactly the first k posters: first the empty list, then after each push a copy of all posters so far |
| MassGeneration.HistoryExtend | src/components/MassGeneration.tsx:307-308 | pushing a poster and publishing a copy extends the history by the new list of posters |
| MassGeneration.GenerationLoop | src/components/MassGeneration.tsx:218-309 | the loop yields exactly the reference posters of min(numImages, catalog size) iterations, skipping failed ones, and publishes their history |
| MassGeneration.GenerateOver | src/components/MassGeneration.tsx:204-316 | the posters are those of the loop over the shuffled catalog with the cycled quotes: at most `numImages` and at most the catalog size, in iteration order, published first as the empty list and then after every poster as a copy of all posters so far |
| MassGeneration.GenerateVariations | src/components/MassGeneration.tsx:204-316 | the same on the bundled catalog of 19 backgrounds and the ten reference quotes |
| MassGeneration.RandomViralQuote | src/components/MassGeneration.tsx:155 | the random fallback is one of the local viral quotes |
| MassGeneration.FetchLLMQuote | src/components/MassGeneration.tsx:142-159 | a failed request or a `null` body gives the fallback; any other result is the fallback or a trimmed string |
| MassGeneration.ReplyIsTrimmed | src/components/MassGeneration.tsx:152-153 | any body in which `choices[0].message.content` reaches a non-empty string, through objects with any other keys, yields that string trimmed |
| MassGeneration.OtherRepliesFallBack | src/components/MassGeneration.tsx:152-157 | every body in which that path does not reach a non-empty string (a missing or falsy step, an empty or non-string content) yields the fallback |
| MassGeneration.ReplyHasContent | src/components/MassGeneration.tsx:152 | the well-behaved chat reply carries its content on that path |
| MassGeneration.EmptyContentFallsBack | src/components/MassGeneration.tsx:152-155 | an empty content falls back |
| MassGeneration.NoChoiceFallsBack | src/components/MassGeneration.tsx:152-155 | a reply without choices or with an empty choice list falls back |
| MassGeneration.NonStringContentFallsBack | src/components/MassGeneration.tsx:153-157 | a content that is not a string makes `trim` throw, and the catch falls back |
| MassGeneration.FileNamesDistinct | src/components/MassGeneration.tsx:320 | posters at different positions get different `jeta-poster-(i+1).jpg` names |
| MassGeneration.Payload | src/components/MassGeneration.tsx:329 | the payload `dataUrl.split(',')[1]` exists exactly when the URL has a comma, and is the text between the first comma and the next comma or the end |
| MassGeneration.SecondPieceUnique | src/components/MassGeneration.tsx:329 | that decomposition of a data URL is unique, so the payload is determined |
| MassGeneration.DownloadAll | src/components/MassGeneration.tsx:326-331 | the archive has exactly one file per image, the file of image k is named `jeta-poster-(k+1).jpg` and holds its payload |
| SingleCreation.AddQuote | src/pages/SingleCreation.tsx:197-207 | one default quote (Inter, 400, 24px, #000000, left, empty text) is appended and earlier quotes are unchanged |
| SingleCreation.RemoveQuote | src/pages/SingleCreation.tsx:209-211 | no quote with the id remains, and the length drops by the number of quotes that had it |
| SingleCreation.RemoveKeepsOthers | src/pages/SingleCreation.tsx:209-211 | every other quote keeps its multiplicity, and the survivors keep their order |
| SingleCreation.RemoveIdempotent | src/pages/SingleCreation.tsx:209-211 | removing twice equals removing once |
| SingleCreation.NoIdUnchanged | src/pages/SingleCreation.tsx:209-211 | removing an id nobody has leaves the list unchanged |
| SingleCreation.AddThenRemove | src/pages/SingleCreation.tsx:197-211 | removing a freshly added quote whose id was unused restores the list |
| SingleCreation.UpdateQuote | src/pages/SingleCreation.tsx:228-232 | same length; quotes with another id untouched; a quote with the id takes every field the update sets and keeps the others |
| SingleCreation.UpdateIdempotent | src/pages/SingleCreation.tsx:228-232 | applying an update that keeps the id a second time changes nothing |
| SingleCreation.EmptyUpdateIsIdentity | src/pages/SingleCreation.tsx:228-232 | an update that sets nothing leaves the list unchanged |
| SingleCreation.FindIndex | src/pages/SingleCreation.tsx:215 | `findIndex` returns the first position with the id, or −1 when there is none |
| SingleCreation.MoveQuote | src/pages/SingleCreation.tsx:213-226 | copying into a fresh array and swapping two slots yields the moved list |
| SingleCreation.MoveWithoutEffect | src/pages/SingleCreation.tsx:215-221 | an unknown id, "up" on the first quote and "down" on the last leave the list unchanged |
| SingleCreation.MoveSwapsNeighbours | src/pages/SingleCreation.tsx:218-224 | otherwise the quote and its neighbour trade places, every other position is unchanged, and the list is a permutation of the original |
| SingleCreation.ExchangePermutes | src/pages/SingleCreation.tsx:223 | the destructuring swap permutes the list |
| SingleCreation.MoveUpThenDown | src/pages/SingleCreation.tsx:213-226 | moving a quote up and then down restores the list |
| SingleCreation.FirstIndexIs | src/pages/SingleCreation.tsx:215 | the first position holding the id is the one `findIndex` reports |
| SingleCreation.FindFont | src/pages/SingleCreation.tsx:235-238 | the font found has the value asked for and comes from a category; there is none exactly when no font of any category has the value |
| SingleCreation.FindFontIsFirst | src/pages/SingleCreation.tsx:235-238 | the first font with the value, in category order and then list order, is the one found |
| SingleCreation.FindFontFound | src/pages/SingleCreation.tsx:235-238 | a font that is found sits at such a first position |
| SingleCreation.FirstWithValue | src/pages/SingleCreation.tsx:236 | `fonts.find` returns the first font with the value |
| SingleCreation.GetCurrentFontWeights | src/pages/SingleCreation.tsx:234-240 | the weights of the first font with the value, in category order and then list order, or `["400"]` when no font has it |
| SingleCreation.FirstFontIs | src/pages/SingleCreation.tsx:236 | the first font with the value is the one `find` reports |
| SingleCreation.NoFontIs | src/pages/SingleCreation.tsx:236 | `find` reports none when no font has the value |
| SingleCreation.InterWeights | src/pages/SingleCreation.tsx:59 | the default font Inter offers weights 400, 500, 600 and 700 |
| SingleCreation.FilterFonts | src/pages/SingleCreation.tsx:116-118 | the kept fonts all match the lowercased search, and every matching font is kept |
| SingleCreation.FilterFontsKeepsCounts | src/pages/SingleCreation.tsx:116-118 | each matching font is kept as often as it occurs, and no other font is kept |
| SingleCreation.FilterFontsInOrder | src/pages/SingleCreation.tsx:116-118 | the kept fonts stay in their order |
| SingleCreation.PushFiltered | src/pages/SingleCreation.tsx:116-122 | one step of the reduce appends the category with its matching fonts, or nothing when none match |
| SingleCreation.FilterCategoriesSnoc | src/pages/SingleCreation.tsx:115-123 | the result for the first c + 1 categories is the result for the first c followed by what the step adds for category c |
| SingleCreation.FilteredCategories | src/pages/SingleCreation.tsx:115-123 | the reduce yields each category with its matching fonts, in order, leaving out categories with none |
| SingleCreation.FilteredCategoriesMatch | src/pages/SingleCreation.tsx:115-123 | no category of the result is empty and every font in it matches |
| SingleCreation.EmptySearchMatches | src/pages/SingleCreation.tsx:117 | every font name contains the empty search |
| SingleCreation.EmptySearchKeepsAll | src/pages/SingleCreation.tsx:115-123 | an empty search keeps every non-empty category whole |
| SingleCreation.KeepAllFonts | src/pages/SingleCreation.tsx:116-118 | an empty search keeps every font of a category |

## Left out

- Canvas rendering is not modelled: `drawImage`, `fillText`, even-odd clipping, `destination-in` and `saturation` compositing, blur filters, gradients, the dark overlay and pixel output. The model stops at the decisions and coordinates handed to the canvas.
- The gradient palette of the no-image path (src/components/ImageGenerator.tsx:315-341) and the gradient fill of text lines are left out: they are colours only.
- The grain texture and every other use of `Math.random` are left out because they are stochastic and cosmetic. The exception is the fallback quote pick, whose random value is a parameter.
- The ML models are not modelled (`cocoSsd`, `bodyPix`, their lazy singletons): predictions and segmentations are inputs. Model load or inference errors are not modelled. The code does not catch them.
- React effects, `isMounted` flags, asynchronous image loading, the detection effect and the toast notice are left out. They are UI scheduling (src/components/ImageGenerator.tsx:94-187).
- The network, JSON parsing, JPEG encoding (`toDataURL`), JSZip's archive format, Blob downloads and all Supabase I/O are left out. Their outcomes are inputs: `FetchOutcome`, the data URL strings.
- The `try`/`catch` and `alert` around the whole `generateVariations` loop are left out, since nothing in the modelled loop can throw.
- The unused `optimalPosition` computed in `drawCanvas` (src/components/ImageGenerator.tsx:202) is left out: its value is never read. Its logic is modelled as `HumanDetection.GetOptimalTextPosition`.
- `HumanDetection.GetOptimalTextPosition`: the final `return` with z-index 1 (src/utils/humanDetection.ts:343) cannot be reached with the three preferences, so it has no counterpart.
- `HumanDetection.DetectHumanInBackground`: the object lookup is modelled as an ordered list of entries with first-match lookup. JavaScript's inherited keys such as `constructor`, which return a non-detection, are not modelled.
- `HumanDetection.DetectFromPredictions`: the boxes the detector returns are taken to be numbers; no check is made that the box lies inside the image, as in the code.
- Compositor.SelectPath: the mask-scaling branch (src/components/ImageGenerator.tsx:260-277) only decides which canvas carries the mask pixels. It does not change which path is chosen, so it is not modelled.
- TextLayout.DrawTextWithLetterSpacing: the anchors are modelled, but not that each glyph is drawn with the current `textAlign`. Canvas applies that alignment again to every single glyph.
- TextLayout.CanvasFontWeight: the string form of the weight in the CSS font shorthand is not modelled.
- JsString.ToLower: only ASCII letters are lowered. Unicode case mapping is not modelled.
- MassGeneration.Shuffle: the random comparator is modelled as an arbitrary sequence of exchanges. It is proved that every result is a permutation. It is not proved that every permutation can arise.
- MassGeneration.FetchLLMQuote: `NaN` truthiness and prototype properties of arrays and strings are not modelled. The code reads only `choices`, `[0]`, `message` and `content`, and JSON cannot produce `NaN`.
- MassGeneration.DownloadAll: what JSZip does with an `undefined` payload (a data URL without a comma) is not modelled. The entry records the payload as absent.
- SingleCreation.UpdateQuote: a `Partial<Quote>` field explicitly set to `undefined` is not modelled. Each update field is either set or absent.
- SingleCreation.FilteredCategories: the accumulator object is modelled as a list in insertion order. The category names of the font catalog are distinct, so no key is overwritten.
- Drag or clamp behaviour of the text position, the font size and colour lists, and the purely presentational files are not modelled. They hold no logic beyond what is listed above.
