/** Editing the quote list of a saved poster (src/pages/SingleCreation.tsx): add,
    remove, move and update quotes keyed by id, the weights offered for a font,
    and the font search. Ids from `crypto.randomUUID` are parameters. */
module SingleCreation {
  import opened Common
  import opened JsString

  datatype Alignment = AlignLeft | AlignCenter | AlignRight

  /** One text block of a poster. */
  datatype Quote = Quote(id: string, text: string, font: string, fontWeight: string,
                         fontSize: string, color: string, alignment: Alignment)

  /** `Partial<Quote>`: the fields an update sets. */
  datatype QuoteUpdate = QuoteUpdate(id: Option<string>, text: Option<string>, font: Option<string>,
                                     fontWeight: Option<string>, fontSize: Option<string>,
                                     color: Option<string>, alignment: Option<Alignment>)

  function Pick<T>(update: Option<T>, current: T): T
  {
    if update.Some? then update.value else current
  }

  // ---------------------------------------------------------------------------
  // Add

  /** The quote `addQuote` appends: empty text in Inter 400, 24px, black, left. */
  function NewQuote(id: string): Quote
  {
    Quote(id, "", "Inter", "400", "24px", "#000000", AlignLeft)
  }

  /** `addQuote` with `freshId` the generated id: one default quote at the end,
      everything before it unchanged. */
  function AddQuote(quotes: seq<Quote>, freshId: string): (r: seq<Quote>)
    ensures |r| == |quotes| + 1 && r[..|quotes|] == quotes
    ensures r[|quotes|] == Quote(freshId, "", "Inter", "400", "24px", "#000000", AlignLeft)
  {
    quotes + [NewQuote(freshId)]
  }

  // ---------------------------------------------------------------------------
  // Remove

  /** `a` is `b` with some elements dropped, the rest in their order. */
  predicate IsSubsequence<T(==)>(a: seq<T>, b: seq<T>)
    decreases |b|
  {
    if |b| == 0 then |a| == 0
    else (|a| > 0 && a[0] == b[0] && IsSubsequence(a[1..], b[1..])) || IsSubsequence(a, b[1..])
  }

  function CountId(quotes: seq<Quote>, id: string): nat
  {
    if |quotes| == 0 then 0 else (if quotes[0].id == id then 1 else 0) + CountId(quotes[1..], id)
  }

  /** `removeQuote`: every quote with the id is dropped; the length drops by
      the number of quotes that had it. */
  function RemoveQuote(quotes: seq<Quote>, id: string): (r: seq<Quote>)
    ensures forall k :: 0 <= k < |r| ==> r[k].id != id
    ensures |r| == |quotes| - CountId(quotes, id)
  {
    if |quotes| == 0 then []
    else
      var rest := RemoveQuote(quotes[1..], id);
      if quotes[0].id == id then rest else [quotes[0]] + rest
  }

  /** Every other quote survives the removal as often as it occurred, and the
      survivors keep their order. */
  lemma {:induction false} RemoveKeepsOthers(quotes: seq<Quote>, id: string)
    ensures forall q: Quote :: q.id != id ==> multiset(RemoveQuote(quotes, id))[q] == multiset(quotes)[q]
    ensures IsSubsequence(RemoveQuote(quotes, id), quotes)
  {
    if |quotes| > 0 {
      var rest := RemoveQuote(quotes[1..], id);
      RemoveKeepsOthers(quotes[1..], id);
      assert quotes == [quotes[0]] + quotes[1..];
      assert multiset(quotes) == multiset{quotes[0]} + multiset(quotes[1..]);
      if quotes[0].id != id {
        assert ([quotes[0]] + rest)[1..] == rest;
        assert multiset([quotes[0]] + rest) == multiset{quotes[0]} + multiset(rest);
      }
    }
  }

  /** Removing twice is removing once. */
  lemma RemoveIdempotent(quotes: seq<Quote>, id: string)
    ensures RemoveQuote(RemoveQuote(quotes, id), id) == RemoveQuote(quotes, id)
  {
    var r := RemoveQuote(quotes, id);
    NoIdUnchanged(r, id);
  }

  /** A list without the id is left as it is. */
  lemma {:induction false} NoIdUnchanged(quotes: seq<Quote>, id: string)
    requires forall k :: 0 <= k < |quotes| ==> quotes[k].id != id
    ensures RemoveQuote(quotes, id) == quotes
  {
    if |quotes| > 0 {
      NoIdUnchanged(quotes[1..], id);
      assert quotes == [quotes[0]] + quotes[1..];
    }
  }

  /** Removing a freshly added quote gives back the list it was added to, when
      the new id was not in use. */
  lemma {:induction false} AddThenRemove(quotes: seq<Quote>, freshId: string)
    requires forall k :: 0 <= k < |quotes| ==> quotes[k].id != freshId
    ensures RemoveQuote(AddQuote(quotes, freshId), freshId) == quotes
  {
    var added := quotes + [NewQuote(freshId)];
    if |quotes| == 0 {
      assert added[1..] == [];
      assert RemoveQuote(added, freshId) == RemoveQuote([], freshId);
    } else {
      assert added[1..] == quotes[1..] + [NewQuote(freshId)];
      AddThenRemove(quotes[1..], freshId);
      assert RemoveQuote(added, freshId) == [quotes[0]] + RemoveQuote(added[1..], freshId);
      assert quotes == [quotes[0]] + quotes[1..];
    }
  }

  // ---------------------------------------------------------------------------
  // Update

  /** `{ ...quote, ...updates }`. */
  function Merge(quote: Quote, updates: QuoteUpdate): Quote
  {
    Quote(Pick(updates.id, quote.id), Pick(updates.text, quote.text), Pick(updates.font, quote.font),
          Pick(updates.fontWeight, quote.fontWeight), Pick(updates.fontSize, quote.fontSize),
          Pick(updates.color, quote.color), Pick(updates.alignment, quote.alignment))
  }

  /** `updateQuote`: same length; quotes with another id are untouched; a quote
      with the id takes every field the update sets and keeps the others. */
  function UpdateQuote(quotes: seq<Quote>, id: string, updates: QuoteUpdate): (r: seq<Quote>)
    ensures |r| == |quotes|
    ensures forall k :: 0 <= k < |quotes| && quotes[k].id != id ==> r[k] == quotes[k]
    ensures forall k :: 0 <= k < |quotes| && quotes[k].id == id ==>
              && r[k].text == Pick(updates.text, quotes[k].text)
              && r[k].font == Pick(updates.font, quotes[k].font)
              && r[k].fontWeight == Pick(updates.fontWeight, quotes[k].fontWeight)
              && r[k].fontSize == Pick(updates.fontSize, quotes[k].fontSize)
              && r[k].color == Pick(updates.color, quotes[k].color)
              && r[k].alignment == Pick(updates.alignment, quotes[k].alignment)
              && r[k].id == Pick(updates.id, id)
  {
    seq(|quotes|, k requires 0 <= k < |quotes| => if quotes[k].id == id then Merge(quotes[k], updates) else quotes[k])
  }

  /** Applying the same update again changes nothing, unless the update moves
      the quote to a new id. */
  lemma UpdateIdempotent(quotes: seq<Quote>, id: string, updates: QuoteUpdate)
    requires updates.id == None || updates.id == Some(id)
    ensures UpdateQuote(UpdateQuote(quotes, id, updates), id, updates) == UpdateQuote(quotes, id, updates)
  {
  }

  /** An update that sets nothing leaves the list as it is. */
  lemma EmptyUpdateIsIdentity(quotes: seq<Quote>, id: string)
    ensures UpdateQuote(quotes, id, QuoteUpdate(None, None, None, None, None, None, None)) == quotes
  {
  }

  // ---------------------------------------------------------------------------
  // Move

  datatype Direction = Up | Down

  /** `findIndex` on the id: the first quote with it, or -1. */
  function FindIndex(quotes: seq<Quote>, id: string): (i: int)
    ensures -1 <= i < |quotes|
    ensures i >= 0 ==> quotes[i].id == id
    ensures forall j :: 0 <= j < |quotes| && (i == -1 || j < i) ==> quotes[j].id != id
  {
    if |quotes| == 0 then -1
    else if quotes[0].id == id then 0
    else
      var i := FindIndex(quotes[1..], id);
      if i == -1 then -1 else i + 1
  }

  /** What `moveQuote` leaves: the first quote with the id exchanged with its
      neighbour in the direction given, or the list itself when the id is
      missing or the neighbour would fall outside the list. */
  function Moved(quotes: seq<Quote>, id: string, direction: Direction): seq<Quote>
  {
    var index := FindIndex(quotes, id);
    var newIndex := if direction == Up then index - 1 else index + 1;
    if index == -1 || newIndex < 0 || newIndex >= |quotes| then quotes
    else quotes[index := quotes[newIndex]][newIndex := quotes[index]]
  }

  /** `moveQuote`: copy the list into a fresh array and swap two slots. */
  method MoveQuote(quotes: seq<Quote>, id: string, direction: Direction) returns (r: seq<Quote>)
    ensures r == Moved(quotes, id, direction)
  {
    var index := FindIndex(quotes, id);
    if index == -1 {
      return quotes;
    }
    var newQuotes := new Quote[|quotes|](k requires 0 <= k < |quotes| => quotes[k]);
    var newIndex := if direction == Up then index - 1 else index + 1;
    if newIndex < 0 || newIndex >= newQuotes.Length {
      return quotes;
    }
    newQuotes[index], newQuotes[newIndex] := newQuotes[newIndex], newQuotes[index];
    r := newQuotes[..];
  }

  /** An unknown id, "up" on the first quote and "down" on the last leave the
      list unchanged. */
  lemma MoveWithoutEffect(quotes: seq<Quote>, id: string, direction: Direction)
    requires FindIndex(quotes, id) == -1
             || (direction == Up && FindIndex(quotes, id) == 0)
             || (direction == Down && FindIndex(quotes, id) == |quotes| - 1)
    ensures Moved(quotes, id, direction) == quotes
  {
  }

  /** Otherwise the quote and its neighbour trade places, every other position
      keeps its quote, and the list is a permutation of the original. */
  lemma MoveSwapsNeighbours(quotes: seq<Quote>, id: string, direction: Direction)
    requires var i := FindIndex(quotes, id);
             i != -1 && (direction == Up ==> i > 0) && (direction == Down ==> i < |quotes| - 1)
    ensures var i := FindIndex(quotes, id);
            var n := if direction == Up then i - 1 else i + 1;
            var r := Moved(quotes, id, direction);
            && |r| == |quotes| && r[i] == quotes[n] && r[n] == quotes[i]
            && (forall k :: 0 <= k < |quotes| && k != i && k != n ==> r[k] == quotes[k])
            && multiset(r) == multiset(quotes)
  {
    var i := FindIndex(quotes, id);
    var n := if direction == Up then i - 1 else i + 1;
    ExchangePermutes(quotes, i, n);
  }

  /** Exchanging two positions permutes a list. */
  lemma ExchangePermutes(s: seq<Quote>, i: nat, n: nat)
    requires i < |s| && n < |s|
    ensures multiset(s[i := s[n]][n := s[i]]) == multiset(s)
  {
    var t := s[i := s[n]];
    assert multiset(t) == multiset(s) - multiset{s[i]} + multiset{s[n]};
  }

  /** Moving a quote up and then down again restores the list. */
  lemma MoveUpThenDown(quotes: seq<Quote>, id: string)
    requires FindIndex(quotes, id) > 0
    ensures Moved(Moved(quotes, id, Up), id, Down) == quotes
  {
    var i := FindIndex(quotes, id);
    var r := quotes[i := quotes[i - 1]][i - 1 := quotes[i]];
    assert Moved(quotes, id, Up) == r;
    FirstIndexIs(r, id, i - 1);
    assert Moved(r, id, Down) == r[i - 1 := r[i]][i := r[i - 1]];
    assert r[i - 1 := r[i]][i := r[i - 1]] == quotes;
  }

  /** The first index whose quote has the id is what `FindIndex` returns. */
  lemma FirstIndexIs(quotes: seq<Quote>, id: string, i: nat)
    requires i < |quotes| && quotes[i].id == id
    requires forall j :: 0 <= j < i ==> quotes[j].id != id
    ensures FindIndex(quotes, id) == i
  {
  }

  // ---------------------------------------------------------------------------
  // Fonts

  /** One selectable font: display name, CSS value, offered weights. */
  datatype Font = Font(name: string, value: string, weights: seq<string>)

  datatype Category = Category(name: string, fonts: seq<Font>)

  const FontCategories: seq<Category> :=
    [
      Category("Sans Serif", [
        Font("Inter", "Inter", ["400", "500", "600", "700"]),
        Font("Roboto", "Roboto", ["400", "500", "700"]),
        Font("Open Sans", "Open Sans", ["400", "600", "700"]),
        Font("Lato", "Lato", ["400", "700"]),
        Font("Montserrat", "Montserrat", ["400", "500", "600", "700"]),
        Font("Poppins", "Poppins", ["400", "500", "600", "700"])
      ]),
      Category("Serif", [
        Font("Playfair Display", "Playfair Display", ["400", "500", "600", "700"]),
        Font("Merriweather", "Merriweather", ["400", "700"]),
        Font("Source Serif Pro", "Source Serif Pro", ["400", "600", "700"]),
        Font("Noto Serif", "Noto Serif", ["400", "700"])
      ]),
      Category("Display", [
        Font("Oswald", "Oswald", ["400", "500", "600", "700"]),
        Font("Raleway", "Raleway", ["400", "500", "600", "700"]),
        Font("Quicksand", "Quicksand", ["400", "500", "600", "700"])
      ]),
      Category("Monospace", [
        Font("Roboto Mono", "Roboto Mono", ["400", "500", "700"]),
        Font("Source Code Pro", "Source Code Pro", ["400", "500", "600", "700"]),
        Font("Ubuntu Mono", "Ubuntu Mono", ["400", "700"])
      ])
    ]

  /** The first font with the CSS value, in category order and within each
      category in list order. */
  function FindFont(categories: seq<Category>, value: string): (r: Option<Font>)
    ensures r.Some? ==> r.value.value == value
    ensures r.Some? ==> exists c :: 0 <= c < |categories| && r.value in categories[c].fonts
    ensures r.None? <==> forall c, k :: 0 <= c < |categories| && 0 <= k < |categories[c].fonts| ==>
                          categories[c].fonts[k].value != value
  {
    if |categories| == 0 then None
    else
      var k := FirstWithValue(categories[0].fonts, value);
      if k < |categories[0].fonts| then Some(categories[0].fonts[k])
      else
        var r := FindFont(categories[1..], value);
        assert r.Some? ==> r.value in categories[1..][0].fonts || exists c :: 1 <= c < |categories| && r.value in categories[c].fonts;
        r
  }

  /** The font at position `k` of category `c` has the value, and no font
      before it (in an earlier category, or earlier in the same one) does. */
  predicate FirstMatchAt(categories: seq<Category>, value: string, c: nat, k: nat)
  {
    && c < |categories| && k < |categories[c].fonts| && categories[c].fonts[k].value == value
    && (forall c', k' :: 0 <= c' < c && 0 <= k' < |categories[c'].fonts| ==> categories[c'].fonts[k'].value != value)
    && (forall k' :: 0 <= k' < k ==> categories[c].fonts[k'].value != value)
  }

  /** `FindFont` returns the first font with the value. */
  lemma {:induction false} FindFontIsFirst(categories: seq<Category>, value: string, c: nat, k: nat)
    requires FirstMatchAt(categories, value, c, k)
    ensures FindFont(categories, value) == Some(categories[c].fonts[k])
  {
    if c == 0 {
      FirstFontIs(categories[0].fonts, value, k);
    } else {
      NoFontIs(categories[0].fonts, value);
      var rest := categories[1..];
      assert forall j :: 0 <= j < |rest| ==> rest[j] == categories[j + 1];
      assert FirstMatchAt(rest, value, c - 1, k);
      FindFontIsFirst(rest, value, c - 1, k);
    }
  }

  /** The default font of a new quote is offered in four weights. */
  lemma InterWeights()
    ensures FindFont(FontCategories, "Inter") == Some(Font("Inter", "Inter", ["400", "500", "600", "700"]))
  {
    assert FirstWithValue(FontCategories[0].fonts, "Inter") == 0;
  }

  /** `fonts.find(f => f.value === value)` as an index, `|fonts|` when absent. */
  function FirstWithValue(fonts: seq<Font>, value: string): (k: nat)
    ensures k <= |fonts|
    ensures k < |fonts| ==> fonts[k].value == value
    ensures forall j :: 0 <= j < k ==> fonts[j].value != value
  {
    if |fonts| == 0 then 0
    else if fonts[0].value == value then 0
    else 1 + FirstWithValue(fonts[1..], value)
  }

  /** `getCurrentFontWeights`: the weights of the first font with the value, and
      only "400" when no category has it. */
  method GetCurrentFontWeights(categories: seq<Category>, font: string) returns (weights: seq<string>)
    ensures FindFont(categories, font).Some? ==> weights == FindFont(categories, font).value.weights
    ensures FindFont(categories, font).None? ==> weights == ["400"]
    ensures forall c: nat, k: nat :: FirstMatchAt(categories, font, c, k) ==> weights == categories[c].fonts[k].weights
  {
    var c := 0;
    while c < |categories|
      invariant 0 <= c <= |categories|
      invariant FindFont(categories, font) == FindFont(categories[c..], font)
    {
      var fonts := categories[c].fonts;
      var k := 0;
      while k < |fonts|
        invariant 0 <= k <= |fonts|
        invariant forall j :: 0 <= j < k ==> fonts[j].value != font
      {
        if fonts[k].value == font {
          assert FirstWithValue(fonts, font) == k by { FirstFontIs(fonts, font, k); }
          FindFontFirstEverywhere(categories, font);
          return fonts[k].weights;
        }
        k := k + 1;
      }
      assert FirstWithValue(fonts, font) == |fonts| by { NoFontIs(fonts, font); }
      assert categories[c..][1..] == categories[c + 1..];
      c := c + 1;
    }
    FindFontFirstEverywhere(categories, font);
    return ["400"];
  }

  /** What `FindFont` finds sits at a first position. */
  lemma {:induction false} FindFontFound(categories: seq<Category>, value: string)
    requires FindFont(categories, value).Some?
    ensures exists c: nat, k: nat :: FirstMatchAt(categories, value, c, k)
              && FindFont(categories, value) == Some(categories[c].fonts[k])
  {
    var k := FirstWithValue(categories[0].fonts, value);
    if k < |categories[0].fonts| {
      assert FirstMatchAt(categories, value, 0, k);
    } else {
      var rest := categories[1..];
      FindFontFound(rest, value);
      var c: nat, k': nat :| FirstMatchAt(rest, value, c, k') && FindFont(rest, value) == Some(rest[c].fonts[k']);
      FirstMatchBehind(categories, value, c, k');
    }
  }

  /** A first position after a category without the value is a first position
      of the whole list, one category further on. */
  lemma FirstMatchBehind(categories: seq<Category>, value: string, c: nat, k: nat)
    requires |categories| > 0 && forall j :: 0 <= j < |categories[0].fonts| ==> categories[0].fonts[j].value != value
    requires FirstMatchAt(categories[1..], value, c, k)
    ensures FirstMatchAt(categories, value, c + 1, k) && categories[c + 1] == categories[1..][c]
  {
    var rest := categories[1..];
    assert forall j :: 0 <= j < |rest| ==> rest[j] == categories[j + 1];
  }

  /** `FindFontIsFirst` for every first position at once. */
  lemma FindFontFirstEverywhere(categories: seq<Category>, value: string)
    ensures forall c: nat, k: nat :: FirstMatchAt(categories, value, c, k) ==> FindFont(categories, value) == Some(categories[c].fonts[k])
  {
    forall c: nat, k: nat | FirstMatchAt(categories, value, c, k)
      ensures FindFont(categories, value) == Some(categories[c].fonts[k])
    {
      FindFontIsFirst(categories, value, c, k);
    }
  }

  lemma FirstFontIs(fonts: seq<Font>, value: string, k: nat)
    requires k < |fonts| && fonts[k].value == value
    requires forall j :: 0 <= j < k ==> fonts[j].value != value
    ensures FirstWithValue(fonts, value) == k
  {
  }

  lemma NoFontIs(fonts: seq<Font>, value: string)
    requires forall j :: 0 <= j < |fonts| ==> fonts[j].value != value
    ensures FirstWithValue(fonts, value) == |fonts|
  {
  }

  /** `font.name.toLowerCase().includes(search.toLowerCase())`. */
  predicate Matches(font: Font, search: string)
  {
    Includes(ToLower(font.name), ToLower(search))
  }

  /** `fonts.filter(matches)`: only matching fonts are kept, and every
      matching font is kept. */
  function FilterFonts(fonts: seq<Font>, search: string): (r: seq<Font>)
    ensures forall k :: 0 <= k < |r| ==> Matches(r[k], search)
    ensures forall f :: f in fonts && Matches(f, search) ==> f in r
  {
    if |fonts| == 0 then []
    else
      var rest := FilterFonts(fonts[1..], search);
      if Matches(fonts[0], search) then [fonts[0]] + rest else rest
  }

  /** Each matching font is kept as often as it occurs, the others not at all. */
  lemma {:induction false} FilterFontsKeepsCounts(fonts: seq<Font>, search: string)
    ensures forall f :: multiset(FilterFonts(fonts, search))[f] == if Matches(f, search) then multiset(fonts)[f] else 0
  {
    if |fonts| > 0 {
      var rest := FilterFonts(fonts[1..], search);
      FilterFontsKeepsCounts(fonts[1..], search);
      assert fonts == [fonts[0]] + fonts[1..];
      assert multiset(fonts) == multiset{fonts[0]} + multiset(fonts[1..]);
      if Matches(fonts[0], search) {
        assert multiset([fonts[0]] + rest) == multiset{fonts[0]} + multiset(rest);
      }
    }
  }

  /** The kept fonts stay in their order. */
  lemma {:induction false} FilterFontsInOrder(fonts: seq<Font>, search: string)
    ensures IsSubsequence(FilterFonts(fonts, search), fonts)
  {
    if |fonts| > 0 {
      var rest := FilterFonts(fonts[1..], search);
      FilterFontsInOrder(fonts[1..], search);
      if Matches(fonts[0], search) {
        assert ([fonts[0]] + rest)[1..] == rest;
      }
    }
  }

  /** What the reduce adds for one category: the category with its matching
      fonts, or nothing when none match. */
  function KeptCategory(category: Category, search: string): seq<Category>
  {
    var fonts := FilterFonts(category.fonts, search);
    if |fonts| > 0 then [Category(category.name, fonts)] else []
  }

  /** The reference result of the `filteredCategories` reduce: each category
      with its matching fonts, in order, categories left empty omitted. */
  function FilterCategories(categories: seq<Category>, search: string): seq<Category>
  {
    if |categories| == 0 then [] else KeptCategory(categories[0], search) + FilterCategories(categories[1..], search)
  }

  /** The reference result of a concatenation is the concatenation of the results. */
  lemma {:induction false} FilterCategoriesAppend(a: seq<Category>, b: seq<Category>, search: string)
    ensures FilterCategories(a + b, search) == FilterCategories(a, search) + FilterCategories(b, search)
  {
    if |a| == 0 {
      assert a + b == b;
    } else {
      assert (a + b)[0] == a[0];
      assert (a + b)[1..] == a[1..] + b;
      FilterCategoriesAppend(a[1..], b, search);
      var k := KeptCategory(a[0], search);
      assert k + (FilterCategories(a[1..], search) + FilterCategories(b, search))
          == (k + FilterCategories(a[1..], search)) + FilterCategories(b, search);
    }
  }

  /** One step of the reduce: the result for the first `c + 1` categories
      extends the result for the first `c`. */
  lemma FilterCategoriesSnoc(categories: seq<Category>, search: string, c: nat)
    requires c < |categories|
    ensures FilterCategories(categories[..c + 1], search)
            == FilterCategories(categories[..c], search) + KeptCategory(categories[c], search)
  {
    assert categories[..c + 1] == categories[..c] + [categories[c]];
    FilterCategoriesAppend(categories[..c], [categories[c]], search);
    assert FilterCategories([categories[c]], search) == KeptCategory(categories[c], search) + FilterCategories([], search);
  }

  /** The body of the reduce for one category: filter its fonts and push the
      category with them when any are left. */
  method PushFiltered(acc: seq<Category>, category: Category, search: string) returns (next: seq<Category>)
    ensures next == acc + KeptCategory(category, search)
  {
    var filteredFonts := FilterFonts(category.fonts, search);
    next := acc;
    if |filteredFonts| > 0 {
      next := acc + [Category(category.name, filteredFonts)];
    }
  }

  /** The reduce over the categories: the accumulator gains a category exactly
      when some font in it matches. */
  method FilteredCategories(categories: seq<Category>, search: string) returns (acc: seq<Category>)
    ensures acc == FilterCategories(categories, search)
  {
    acc := [];
    var c := 0;
    while c < |categories|
      invariant 0 <= c <= |categories|
      invariant acc == FilterCategories(categories[..c], search)
    {
      FilterCategoriesSnoc(categories, search, c);
      acc := PushFiltered(acc, categories[c], search);
      c := c + 1;
    }
    assert categories[..c] == categories;
  }

  /** No category of the result is empty, and every font in it matches. */
  lemma {:induction false} FilteredCategoriesMatch(categories: seq<Category>, search: string)
    ensures forall c :: 0 <= c < |FilterCategories(categories, search)| ==>
              |FilterCategories(categories, search)[c].fonts| > 0
    ensures forall c, k :: 0 <= c < |FilterCategories(categories, search)| &&
                           0 <= k < |FilterCategories(categories, search)[c].fonts| ==>
              Matches(FilterCategories(categories, search)[c].fonts[k], search)
  {
    if |categories| > 0 {
      FilteredCategoriesMatch(categories[1..], search);
    }
  }

  /** Every string contains the empty string, so an empty search keeps every
      font. */
  lemma EmptySearchMatches(font: Font)
    ensures Matches(font, "")
  {
  }

  /** With an empty search every non-empty category is kept whole. */
  lemma {:induction false} EmptySearchKeepsAll(categories: seq<Category>)
    requires forall c :: 0 <= c < |categories| ==> |categories[c].fonts| > 0
    ensures FilterCategories(categories, "") == categories
  {
    if |categories| > 0 {
      KeepAllFonts(categories[0].fonts);
      EmptySearchKeepsAll(categories[1..]);
      assert categories == [categories[0]] + categories[1..];
    }
  }

  lemma {:induction false} KeepAllFonts(fonts: seq<Font>)
    ensures FilterFonts(fonts, "") == fonts
  {
    if |fonts| > 0 {
      EmptySearchMatches(fonts[0]);
      KeepAllFonts(fonts[1..]);
      assert fonts == [fonts[0]] + fonts[1..];
    }
  }
}
