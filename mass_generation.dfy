/** The batch generator (src/components/MassGeneration.tsx): the background
    catalog and the two quote lists, the cycling of quotes over the requested
    count, the shuffled catalog, the generation loop with its skips and its
    published snapshots, the fallback of the remote quote service, and the names
    of the downloaded files. Drawing, JPEG encoding, randomness and the network
    are inputs or left out. */
module MassGeneration {
  import opened Common
  import opened JsString
  import opened Compositor

  /** One catalog background. */
  datatype Background = Background(id: string, name: string, category: string, image: string)

  /** A quote split over the two lines of a poster. */
  datatype TwoLineQuote = TwoLineQuote(top: string, bottom: string)

  /** The address of a stock photo, fetched 800 pixels wide. */
  function Unsplash(photo: string): string
  {
    "https://images.unsplash.com/photo-" + photo + "?auto=format&fit=crop&w=800&q=80"
  }

  /** The bundled background catalog, in its listed order. */
  const Backgrounds: seq<Background> :=
    [
      Background("mountain-lake", "Mountain Lake", "Nature",
        Unsplash("1506744038136-46273834b3fb")),
      Background("city-lights", "City Lights", "City",
        Unsplash("1465101046530-73398c7f28ca")),
      Background("forest-path", "Forest Path", "Nature",
        Unsplash("1501785888041-af3ef285b470")),
      Background("abstract-paint", "Abstract Paint", "Abstract",
        Unsplash("1465101178521-c1a9136a3b99")),
      Background("desert-dunes", "Desert Dunes", "Nature",
        Unsplash("1500534314209-a25ddb2bd429")),
      Background("night-sky", "Night Sky", "Nature",
        Unsplash("1462331940025-496dfbfc7564")),
      Background("urban-bridge", "Urban Bridge", "City",
        Unsplash("1465101178521-c1a9136a3b99")),
      Background("colorful-waves", "Colorful Waves", "Abstract",
        Unsplash("1465101046530-73398c7f28ca")),
      Background("misty-mountains", "Misty Mountains", "Nature",
        Unsplash("1506744038136-46273834b3fb")),
      Background("messi", "Messi", "Sport",
        "/images-all/messi.webp"),
      Background("batman", "Batman", "Movies",
        "/images-all/batman.jpg"),
      Background("wolf-of-wall-street", "Wolf of Wall Street", "Movies",
        "/images-all/wolf of the wall street.jpg"),
      Background("fight-club", "Fight Club", "Movies",
        "/images-all/fight club.jpg"),
      Background("lebron-james", "LeBron James", "Sport",
        "/images-all/lebron james.webp"),
      Background("elon-musk", "Elon Musk", "Tech",
        "/images-all/elon musk.webp"),
      Background("mark-zuckerberg", "Mark Zuckerberg", "Tech",
        "/images-all/mark zuckerberg..webp"),
      Background("steve-jobs", "Steve Jobs", "Tech",
        "/images-all/young-steve-jobs-1_0.jpg"),
      Background("wolf-of-wall-street-1", "Wolf of Wall Street 1", "Movies",
        "/images-all/wolf of the wall street 1.jpg"),
      Background("wolf-of-wall-street-2", "Wolf of Wall Street 2", "Movies",
        "/images-all/wolf of wall street 2.jpg")
    ]

  /** The local quotes `fetchLLMQuote` falls back on. */
  const ViralQuotes: seq<string> :=
    [
      "Success is not for the lazy.",
      "Dream big. Work hard. Stay focused.",
      "Hustle in silence, let your success make the noise.",
      "Winners are not people who never fail, but people who never quit.",
      "Discipline is the bridge between goals and accomplishment.",
      "Push yourself, because no one else is going to do it for you.",
      "Great things never come from comfort zones.",
      "Your only limit is your mind.",
      "Don't stop when you're tired. Stop when you're done.",
      "The harder you work for something, the greater you'll feel when you achieve it."
    ]

  /** The quotes the generator pairs with backgrounds. */
  const ReferenceQuotes: seq<TwoLineQuote> :=
    [
      TwoLineQuote("i'm doing this", "for me."),
      TwoLineQuote("i got my", "own back"),
      TwoLineQuote("God's plan", "over mine"),
      TwoLineQuote("love yourself,", "not me."),
      TwoLineQuote("i'll make it", "on my own"),
      TwoLineQuote("trust the", "process"),
      TwoLineQuote("no one else", "but me"),
      TwoLineQuote("i choose", "myself"),
      TwoLineQuote("stay true", "to you"),
      TwoLineQuote("keep moving", "forward")
    ]

  function Min(a: nat, b: nat): nat
  {
    if a <= b then a else b
  }

  // ---------------------------------------------------------------------------
  // Quote cycling

  /** `quotesToUse`: one quote per requested image, cycling through the
      reference list. */
  function QuotesToUse(references: seq<TwoLineQuote>, numImages: nat): (quotes: seq<TwoLineQuote>)
    requires |references| > 0
    ensures |quotes| == numImages
    ensures forall i :: 0 <= i < numImages ==> quotes[i] == references[i % |references|]
  {
    seq(numImages, i requires 0 <= i < numImages => references[i % |references|])
  }

  /** Up to the list's length the quotes are the list itself, in order. */
  lemma QuotesPrefix(references: seq<TwoLineQuote>, numImages: nat)
    requires 0 < |references| && numImages <= |references|
    ensures QuotesToUse(references, numImages) == references[..numImages]
  {
    var quotes := QuotesToUse(references, numImages);
    forall i | 0 <= i < numImages
      ensures quotes[i] == references[i]
    {
      assert i % |references| == i;
    }
  }

  /** Beyond the list's length the quotes repeat with its period. */
  lemma QuotesRepeat(references: seq<TwoLineQuote>, numImages: nat, i: nat)
    requires |references| > 0 && i + |references| < numImages
    ensures QuotesToUse(references, numImages)[i + |references|] == QuotesToUse(references, numImages)[i]
  {
    ModShift(i, |references|);
  }

  /** Adding the divisor does not change the remainder. */
  lemma ModShift(i: nat, n: nat)
    requires n > 0
    ensures (i + n) % n == i % n
  {
    var q, r := i / n, i % n;
    Distrib(q + 1, q, n);
    ModUnique(i + n, n, q + 1, r);
  }

  /** The remainder is determined by any decomposition with a smaller rest. */
  lemma ModUnique(a: nat, n: nat, q: nat, r: nat)
    requires n > 0 && r < n && a == q * n + r
    ensures a % n == r
  {
    var q2 := a / n;
    if q > q2 {
      Distrib(q, q2, n);
      MulAtLeast(q - q2, n);
    } else if q < q2 {
      Distrib(q2, q, n);
      MulAtLeast(q2 - q, n);
    }
  }

  lemma Distrib(a: int, b: int, n: int)
    ensures a * n - b * n == (a - b) * n
  {
  }

  lemma {:induction false} MulAtLeast(k: int, n: nat)
    requires k >= 1
    ensures k * n >= n
  {
    if k > 1 {
      MulAtLeast(k - 1, n);
      Distrib(k, 1, n);
    }
  }

  // ---------------------------------------------------------------------------
  // Shuffle

  /** One exchange of two positions; a shuffle is a sequence of them. */
  datatype Swap = Swap(i: nat, j: nat)

  /** `s` with positions `i` and `j` exchanged. */
  function Exchange<T>(s: seq<T>, i: nat, j: nat): (r: seq<T>)
    requires i < |s| && j < |s|
    ensures |r| == |s| && r[i] == s[j] && r[j] == s[i]
    ensures forall k :: 0 <= k < |s| && k != i && k != j ==> r[k] == s[k]
    ensures multiset(r) == multiset(s)
  {
    var r := s[i := s[j]][j := s[i]];
    assert multiset(s[i := s[j]]) == multiset(s) - multiset{s[i]} + multiset{s[j]};
    r
  }

  /** The catalog after the random sort, stated as the exchanges the sort
      performed; exchanges naming a position outside the catalog do nothing.
      Whatever the exchanges, the result is a permutation of the catalog. */
  function Shuffle<T>(s: seq<T>, swaps: seq<Swap>): (r: seq<T>)
    ensures |r| == |s|
    ensures multiset(r) == multiset(s)
    decreases |swaps|
  {
    if |swaps| == 0 then s
    else
      var w := swaps[0];
      var t := if w.i < |s| && w.j < |s| then Exchange(s, w.i, w.j) else s;
      Shuffle(t, swaps[1..])
  }

  /** Every background of the shuffled catalog is a catalog background. */
  lemma ShuffledFromCatalog<T>(catalog: seq<T>, swaps: seq<Swap>, k: nat)
    requires k < |catalog|
    ensures Shuffle(catalog, swaps)[k] in catalog
  {
    var shuffled := Shuffle(catalog, swaps);
    assert shuffled[k] in multiset(shuffled);
  }

  // ---------------------------------------------------------------------------
  // Generation loop

  /** How loading one background image ended: decoded with its size, or failed
      (`!img.complete || img.naturalWidth === 0`). */
  datatype ImageLoad = Loaded(width: Pos, height: Pos) | Broken

  /** One `fillText` call: text, anchor, size and weight. */
  datatype TextDraw = TextDraw(text: string, x: real, y: real, fontSize: nat, fontWeight: nat)

  /** What is drawn on one poster. */
  datatype Poster = Poster(background: Background, fit: DrawRect, top: TextDraw, bottom: TextDraw)

  /** The poster for `bg` and `quote` with an image of the given size: the
      background cover-fitted into 800 by 800, the top line lowercased at
      (400, 370) in 54px weight 700, the bottom line lowercased at (400, 470) in
      86px weight 900. */
  function PosterFor(bg: Background, quote: TwoLineQuote, width: Pos, height: Pos): (p: Poster)
    ensures p.background == bg
    ensures p.top == TextDraw(ToLower(quote.top), 400.0, 370.0, 54, 700)
    ensures p.bottom == TextDraw(ToLower(quote.bottom), 400.0, 470.0, 86, 900)
    ensures |p.top.text| == |quote.top| && |p.bottom.text| == |quote.bottom|
  {
    Poster(bg, CoverFit(width, height, CanvasSide, CanvasSide),
           TextDraw(ToLower(quote.top), 400.0, 370.0, 54, 700),
           TextDraw(ToLower(quote.bottom), 400.0, 470.0, 86, 900))
  }

  /** A poster's image keeps its aspect ratio, covers the whole 800 by 800
      canvas and is centred on it. */
  lemma PosterCoversCanvas(bg: Background, quote: TwoLineQuote, width: Pos, height: Pos)
    ensures var fit := PosterFor(bg, quote, width, height).fit;
            && fit.width * height == fit.height * width
            && fit.width >= CanvasSide && fit.height >= CanvasSide
            && fit.offsetX == (CanvasSide - fit.width) / 2.0 && fit.offsetY == (CanvasSide - fit.height) / 2.0
  {
    CoverFitCovers(width, height, CanvasSide, CanvasSide);
  }

  /** Iteration `i` of the loop: nothing when the 2D context is missing or the
      image failed to load, otherwise the poster of background `i` with quote `i`. */
  function Attempt(i: nat, shuffled: seq<Background>, quotes: seq<TwoLineQuote>,
                   hasContext: nat -> bool, load: nat -> ImageLoad): Option<Poster>
    requires i < |shuffled| && i < |quotes|
  {
    if !hasContext(i) then None
    else match load(i)
      case Broken => None
      case Loaded(w, h) => Some(PosterFor(shuffled[i], quotes[i], w, h))
  }

  /** The posters of the first `count` iterations, in iteration order. Each
      iteration adds at most one. */
  function Generated(count: nat, shuffled: seq<Background>, quotes: seq<TwoLineQuote>,
                     hasContext: nat -> bool, load: nat -> ImageLoad): (posters: seq<Poster>)
    requires count <= |shuffled| && count <= |quotes|
    ensures |posters| <= count
  {
    if count == 0 then []
    else
      var earlier := Generated(count - 1, shuffled, quotes, hasContext, load);
      match Attempt(count - 1, shuffled, quotes, hasContext, load)
      case None => earlier
      case Some(p) => earlier + [p]
  }

  /** Every poster is drawn on one of the visited backgrounds. */
  lemma {:induction false} GeneratedFromVisited(count: nat, shuffled: seq<Background>, quotes: seq<TwoLineQuote>,
                                                hasContext: nat -> bool, load: nat -> ImageLoad, k: nat)
    requires count <= |shuffled| && count <= |quotes|
    requires k < |Generated(count, shuffled, quotes, hasContext, load)|
    ensures Generated(count, shuffled, quotes, hasContext, load)[k].background in shuffled[..count]
  {
    var earlier := Generated(count - 1, shuffled, quotes, hasContext, load);
    if k < |earlier| {
      GeneratedFromVisited(count - 1, shuffled, quotes, hasContext, load, k);
      assert shuffled[..count - 1] <= shuffled[..count];
    } else {
      assert shuffled[count - 1] == shuffled[..count][count - 1];
    }
  }

  /** When every iteration succeeds, poster `k` is background `k` with quote `k`. */
  lemma {:induction false} AllSucceed(count: nat, shuffled: seq<Background>, quotes: seq<TwoLineQuote>,
                                      hasContext: nat -> bool, load: nat -> ImageLoad)
    requires count <= |shuffled| && count <= |quotes|
    requires forall i :: 0 <= i < count ==> hasContext(i) && load(i).Loaded?
    ensures |Generated(count, shuffled, quotes, hasContext, load)| == count
    ensures forall k :: 0 <= k < count ==>
              Generated(count, shuffled, quotes, hasContext, load)[k].background == shuffled[k] &&
              Generated(count, shuffled, quotes, hasContext, load)[k].top.text == ToLower(quotes[k].top)
  {
    if count > 0 {
      AllSucceed(count - 1, shuffled, quotes, hasContext, load);
    }
  }

  /** A failed iteration adds nothing. */
  lemma FailureAddsNothing(count: nat, shuffled: seq<Background>, quotes: seq<TwoLineQuote>,
                           hasContext: nat -> bool, load: nat -> ImageLoad)
    requires count < |shuffled| && count < |quotes|
    requires !hasContext(count) || load(count).Broken?
    ensures Generated(count + 1, shuffled, quotes, hasContext, load) == Generated(count, shuffled, quotes, hasContext, load)
  {
  }

  /** An iteration that produces nothing leaves the posters as they were. */
  lemma GeneratedSkip(i: nat, shuffled: seq<Background>, quotes: seq<TwoLineQuote>,
                      hasContext: nat -> bool, load: nat -> ImageLoad)
    requires i < |shuffled| && i < |quotes|
    requires !hasContext(i) || load(i).Broken?
    ensures Generated(i + 1, shuffled, quotes, hasContext, load) == Generated(i, shuffled, quotes, hasContext, load)
  {
    assert Attempt(i, shuffled, quotes, hasContext, load) == None;
  }

  /** An iteration that loads its image appends its poster. */
  lemma GeneratedAppend(i: nat, shuffled: seq<Background>, quotes: seq<TwoLineQuote>,
                        hasContext: nat -> bool, load: nat -> ImageLoad, p: Poster)
    requires i < |shuffled| && i < |quotes|
    requires hasContext(i) && load(i).Loaded?
    requires p == PosterFor(shuffled[i], quotes[i], load(i).width, load(i).height)
    ensures Generated(i + 1, shuffled, quotes, hasContext, load) == Generated(i, shuffled, quotes, hasContext, load) + [p]
  {
    assert Attempt(i, shuffled, quotes, hasContext, load) == Some(p);
  }

  /** The gallery contents published while `variations` was built, in order:
      the empty list, then one more poster each time. */
  function History(variations: seq<Poster>): (published: seq<seq<Poster>>)
    ensures |published| == |variations| + 1
  {
    if |variations| == 0 then [[]] else History(variations[..|variations| - 1]) + [variations]
  }

  /** Snapshot `k` of the history shows the first `k` posters. */
  lemma {:induction false} HistoryPrefixes(variations: seq<Poster>)
    ensures forall k :: 0 <= k <= |variations| ==> History(variations)[k] == variations[..k]
  {
    if |variations| > 0 {
      var earlier := variations[..|variations| - 1];
      HistoryPrefixes(earlier);
      forall k | 0 <= k < |variations|
        ensures History(variations)[k] == variations[..k]
      {
        assert earlier[..k] == variations[..k];
      }
      assert variations[..|variations|] == variations;
    }
  }

  /** Appending a poster and publishing a copy of all posters extends the history. */
  lemma HistoryExtend(variations: seq<Poster>, p: Poster)
    ensures History(variations + [p]) == History(variations) + [variations + [p]]
  {
    assert (variations + [p])[..|variations|] == variations;
  }

  /** `variations` are the posters of the loop over the shuffled catalog: one
      iteration per requested image while the catalog lasts, with quote `i` of
      the cycled reference list on background `i`. */
  predicate GeneratedFrom(numImages: nat, catalog: seq<Background>, references: seq<TwoLineQuote>, swaps: seq<Swap>,
                          hasContext: nat -> bool, load: nat -> ImageLoad, variations: seq<Poster>)
  {
    && |references| > 0
    && variations == Generated(Min(numImages, |catalog|), Shuffle(catalog, swaps), QuotesToUse(references, numImages),
                               hasContext, load)
  }

  /** The generation loop of `generateVariations` over the shuffled catalog
      and the cycled quotes: visit at most `numImages` backgrounds, skip an
      iteration without a 2D context or whose image did not load, and append
      each poster in order. `published` lists what the gallery is set to: first
      the empty list, then after each poster a copy of all posters so far. */
  method GenerationLoop(numImages: nat, shuffled: seq<Background>, quotes: seq<TwoLineQuote>,
                        hasContext: nat -> bool, load: nat -> ImageLoad)
    returns (variations: seq<Poster>, published: seq<seq<Poster>>)
    requires |quotes| == numImages
    ensures variations == Generated(Min(numImages, |shuffled|), shuffled, quotes, hasContext, load)
    ensures published == History(variations)
  {
    variations := [];
    published := [[]];
    var i := 0;
    while i < numImages && i < |shuffled|
      invariant i <= Min(numImages, |shuffled|)
      invariant variations == Generated(i, shuffled, quotes, hasContext, load)
      invariant published == History(variations)
    {
      var background := shuffled[i];
      var quote := quotes[i];
      if !hasContext(i) {
        GeneratedSkip(i, shuffled, quotes, hasContext, load);
        i := i + 1;
        continue;
      }
      var img := load(i);
      if img.Broken? {
        GeneratedSkip(i, shuffled, quotes, hasContext, load);
        i := i + 1;
        continue;
      }
      var poster := PosterFor(background, quote, img.width, img.height);
      GeneratedAppend(i, shuffled, quotes, hasContext, load, poster);
      HistoryExtend(variations, poster);
      variations := variations + [poster];
      published := published + [variations];
      i := i + 1;
    }
  }

  /** The generation over a catalog: shuffle it, cycle the reference quotes
      over the requested count, and run the loop. */
  method GenerateOver(numImages: nat, catalog: seq<Background>, references: seq<TwoLineQuote>, swaps: seq<Swap>,
                      hasContext: nat -> bool, load: nat -> ImageLoad)
    returns (variations: seq<Poster>, published: seq<seq<Poster>>)
    requires |references| > 0
    ensures GeneratedFrom(numImages, catalog, references, swaps, hasContext, load, variations)
    ensures |variations| <= numImages && |variations| <= |catalog|
    ensures published == History(variations)
  {
    var shuffled := Shuffle(catalog, swaps);
    var quotes := QuotesToUse(references, numImages);
    variations, published := GenerationLoop(numImages, shuffled, quotes, hasContext, load);
  }

  /** `generateVariations`: the generation loop over the bundled catalog. */
  method GenerateVariations(numImages: nat, swaps: seq<Swap>, hasContext: nat -> bool, load: nat -> ImageLoad)
    returns (variations: seq<Poster>, published: seq<seq<Poster>>)
    ensures GeneratedFrom(numImages, Backgrounds, ReferenceQuotes, swaps, hasContext, load, variations)
    ensures |variations| <= numImages && |variations| <= |Backgrounds|
    ensures published == History(variations)
  {
    variations, published := GenerateOver(numImages, Backgrounds, ReferenceQuotes, swaps, hasContext, load);
  }

  // ---------------------------------------------------------------------------
  // Remote quote fallback

  /** A JavaScript value as `response.json()` can produce it, plus `undefined`
      for a missing property. */
  datatype JsValue =
    | Undefined
    | Null
    | Bool(b: bool)
    | Num(n: real)
    | Str(s: string)
    | Arr(items: seq<JsValue>)
    | Obj(fields: map<string, JsValue>)

  /** JavaScript truthiness (NaN is not modelled). */
  predicate Truthy(v: JsValue)
  {
    match v
    case Undefined => false
    case Null => false
    case Bool(b) => b
    case Num(n) => n != 0.0
    case Str(s) => s != ""
    case Arr(_) => true
    case Obj(_) => true
  }

  /** `v.name` for a property name that neither arrays nor strings carry. */
  function Member(v: JsValue, name: string): JsValue
    requires !v.Undefined? && !v.Null?
  {
    if v.Obj? && name in v.fields then v.fields[name] else Undefined
  }

  /** `v[0]`. */
  function Index0(v: JsValue): JsValue
    requires !v.Undefined? && !v.Null?
  {
    match v
    case Arr(items) => if |items| > 0 then items[0] else Undefined
    case Str(s) => if |s| > 0 then Str([s[0]]) else Undefined
    case Obj(fields) => if "0" in fields then fields["0"] else Undefined
    case _ => Undefined
  }

  /** How the request ended: a network or JSON error, or a parsed body. */
  datatype FetchOutcome = Failed | Parsed(body: JsValue)

  /** The reply of a well-behaved chat service with content `s`. */
  function Reply(s: string): JsValue
  {
    Obj(map["choices" := Arr([Obj(map["message" := Obj(map["content" := Str(s)])])])])
  }

  /** `viralQuotes[Math.floor(r * viralQuotes.length)]` for `0 <= r < 1`. */
  function RandomViralQuote(r: real): (quote: string)
    requires 0.0 <= r < 1.0
    ensures quote in ViralQuotes
  {
    var k := (r * |ViralQuotes| as real).Floor;
    assert 0 <= k < |ViralQuotes|;
    ViralQuotes[k]
  }

  /** `fetchLLMQuote`, with `fallback` the local quote `Math.random` picked: the
      trimmed content when `choices[0].message.content` is a non-empty string;
      the fallback on a failed request, a `null` body, a falsy step on that path,
      or a content that is not a string (`trim` then throws). */
  function FetchLLMQuote(outcome: FetchOutcome, fallback: string): (quote: string)
    ensures outcome.Failed? ==> quote == fallback
    ensures outcome.Parsed? && outcome.body.Null? ==> quote == fallback
    ensures quote == fallback || Trim(quote) == quote
  {
    match outcome
    case Failed => fallback
    case Parsed(data) =>
      if data.Null? || data.Undefined? then fallback
      else
        var choices := Member(data, "choices");
        if !Truthy(choices) then fallback
        else
          var first := Index0(choices);
          if !Truthy(first) then fallback
          else
            var message := Member(first, "message");
            if !Truthy(message) then fallback
            else
              var content := Member(message, "content");
              if !Truthy(content) || !content.Str? then fallback
              else
                TrimIdempotent(content.s);
                Trim(content.s)
  }

  /** `v` is an object whose own property `name` holds `w`; any other keys may
      be present. */
  predicate HasProperty(v: JsValue, name: string, w: JsValue)
  {
    v.Obj? && name in v.fields && v.fields[name] == w
  }

  /** `v[0]` is `w`: the first element of a non-empty array, the property "0" of
      an object, or the first character of a non-empty string. */
  predicate HasFirst(v: JsValue, w: JsValue)
  {
    || (v.Arr? && |v.items| > 0 && v.items[0] == w)
    || (v.Obj? && "0" in v.fields && v.fields["0"] == w)
    || (v.Str? && |v.s| > 0 && w == Str([v.s[0]]))
  }

  /** `data.choices[0].message.content` is the string `s`, through the
      intermediate values `choices`, `first` and `message`. */
  predicate ContentPath(data: JsValue, choices: JsValue, first: JsValue, message: JsValue, s: string)
  {
    && HasProperty(data, "choices", choices)
    && HasFirst(choices, first)
    && HasProperty(first, "message", message)
    && HasProperty(message, "content", Str(s))
  }

  /** A reply in which `choices[0].message.content` is a non-empty string
      yields that string trimmed, whatever other fields the reply carries. */
  lemma ReplyIsTrimmed(data: JsValue, choices: JsValue, first: JsValue, message: JsValue, s: string,
                       fallback: string)
    requires ContentPath(data, choices, first, message, s) && s != ""
    ensures FetchLLMQuote(Parsed(data), fallback) == Trim(s)
  {
    assert !data.Null? && !data.Undefined?;
    assert Member(data, "choices") == choices && Truthy(choices);
    assert Index0(choices) == first && Truthy(first);
    assert Member(first, "message") == message && Truthy(message);
    assert Member(message, "content") == Str(s) && Truthy(Str(s));
  }

  /** Every other body falls back: when no `choices[0].message.content` path
      ends in a non-empty string, the result is the fallback. */
  lemma OtherRepliesFallBack(data: JsValue, fallback: string)
    requires forall choices, first, message, s :: ContentPath(data, choices, first, message, s) ==> s == ""
    ensures FetchLLMQuote(Parsed(data), fallback) == fallback
  {
    if FetchLLMQuote(Parsed(data), fallback) != fallback {
      var choices := Member(data, "choices");
      var first := Index0(choices);
      var message := Member(first, "message");
      var content := Member(message, "content");
      assert ContentPath(data, choices, first, message, content.s);
    }
  }

  /** The well-behaved reply `Reply(s)` is one such reply. */
  lemma ReplyHasContent(s: string)
    ensures var message := Obj(map["content" := Str(s)]);
            var first := Obj(map["message" := message]);
            var choices := Arr([first]);
            ContentPath(Reply(s), choices, first, message, s)
  {
  }

  /** An empty content falls back. */
  lemma EmptyContentFallsBack(fallback: string)
    ensures FetchLLMQuote(Parsed(Reply("")), fallback) == fallback
  {
  }

  /** A reply without choices, or with an empty choice list, falls back. */
  lemma NoChoiceFallsBack(fallback: string)
    ensures FetchLLMQuote(Parsed(Obj(map[])), fallback) == fallback
    ensures FetchLLMQuote(Parsed(Obj(map["choices" := Arr([])])), fallback) == fallback
  {
  }

  /** A content that is not a string falls back. */
  lemma NonStringContentFallsBack(v: JsValue, fallback: string)
    requires !v.Str?
    ensures FetchLLMQuote(Parsed(Obj(map["choices" := Arr([Obj(map["message" := Obj(map["content" := v])])])])), fallback)
              == fallback
  {
  }

  // ---------------------------------------------------------------------------
  // Downloads

  /** The name of poster `index` (zero-based) when downloaded or zipped. */
  function FileName(index: nat): string
  {
    "jeta-poster-" + DecimalString(index + 1) + ".jpg"
  }

  /** Different posters get different names. */
  lemma FileNamesDistinct(i: nat, j: nat)
    requires i != j
    ensures FileName(i) != FileName(j)
  {
    if FileName(i) == FileName(j) {
      var a := FileName(i);
      var b := FileName(j);
      assert a[12..|a| - 4] == DecimalString(i + 1);
      assert b[12..|b| - 4] == DecimalString(j + 1);
      DecimalInjective(i + 1, j + 1);
    }
  }

  /** `dataUrl` is `head`, a comma, `payload` and `tail`, where neither `head`
      nor `payload` holds a comma and `tail` is empty or starts with one. */
  predicate SecondPiece(dataUrl: string, head: string, payload: string, tail: string)
  {
    && dataUrl == head + "," + payload + tail
    && ',' !in head && ',' !in payload
    && (tail == "" || tail[0] == ',')
  }

  /** A comma-free piece followed by nothing or by a comma ends at the first
      comma of the text, or at its end. */
  lemma PieceEndsAtComma(text: string, piece: string, tail: string)
    requires text == piece + tail && ',' !in piece && (tail == "" || tail[0] == ',')
    ensures forall i :: 0 <= i < |piece| ==> text[i] != ','
    ensures |piece| == |text| || text[|piece|] == ','
  {
    assert forall i :: 0 <= i < |piece| ==> text[i] == piece[i];
  }

  /** The decomposition is unique, so it determines the payload: the head
      ends at the first comma and the payload at the next one. */
  lemma SecondPieceUnique(dataUrl: string, h1: string, p1: string, t1: string,
                          h2: string, p2: string, t2: string)
    requires SecondPiece(dataUrl, h1, p1, t1) && SecondPiece(dataUrl, h2, p2, t2)
    ensures h1 == h2 && p1 == p2 && t1 == t2
  {
    PieceEndsAtComma(dataUrl, h1, "," + p1 + t1);
    PieceEndsAtComma(dataUrl, h2, "," + p2 + t2);
    assert |h1| == |h2|;
    assert h1 == dataUrl[..|h1|] == h2;
    var rest := dataUrl[|h1| + 1..];
    assert rest == p1 + t1 && rest == p2 + t2;
    PieceEndsAtComma(rest, p1, t1);
    PieceEndsAtComma(rest, p2, t2);
    assert |p1| == |p2|;
    assert p1 == rest[..|p1|] == p2;
  }

  /** The base64 payload of a data URL: `dataUrl.split(',')[1]`, the text
      between the first comma and the next comma or the end; absent when there
      is no comma. */
  function Payload(dataUrl: string): (payload: Option<string>)
    ensures payload.Some? <==> ',' in dataUrl
    ensures payload.Some? ==> exists head, tail :: SecondPiece(dataUrl, head, payload.value, tail)
  {
    var pieces := Split(dataUrl, ',');
    if |pieces| > 1 then
      JoinFirstTwo(pieces, ",");
      var tail := if |pieces| == 2 then "" else "," + Join(pieces[2..], ",");
      assert SecondPiece(dataUrl, pieces[0], pieces[1], tail);
      Some(pieces[1])
    else None
  }

  /** `downloadAll`: the archive gets one file per generated image, named after
      its position, holding that image's payload; as the names differ, no file
      overwrites another. */
  method DownloadAll(images: seq<string>) returns (zip: map<string, Option<string>>)
    ensures |zip| == |images|
    ensures forall k :: 0 <= k < |images| ==> FileName(k) in zip && zip[FileName(k)] == Payload(images[k])
  {
    zip := map[];
    var i := 0;
    while i < |images|
      invariant 0 <= i <= |images|
      invariant |zip| == i
      invariant forall k :: 0 <= k < i ==> FileName(k) in zip && zip[FileName(k)] == Payload(images[k])
      invariant forall j :: i <= j ==> FileName(j) !in zip
    {
      forall j | i < j
        ensures FileName(j) != FileName(i)
      {
        FileNamesDistinct(i, j);
      }
      zip := zip[FileName(i) := Payload(images[i])];
      i := i + 1;
    }
  }
}
