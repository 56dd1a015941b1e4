/**
 The usage missing from image requests, cell by cell: a request that should have reported tokens and did not can be
 made up for by one that did without being expected to, but only within its own cell.
 */
module CostShortfall {
  import opened Bytes
  import opened Sums
  import opened Pricing
  import opened CostBuckets
  import opened ImageBuckets
  import opened CostReport

  // ---------- what is expected and not there ----------

  function MissingOf(): TextRow -> int { (row: TextRow) => row.tally.counts.missing }

  /** Image requests of a model that should have usage, less those that have. */
  function TextGapOf(model: string): TextRow -> int {
    (row: TextRow) => if row.key.imageRequest && row.key.model == model
                      then row.tally.counts.observed + row.tally.counts.sideChannel - row.tally.used else 0
  }

  /** The same by image rows, for a model whose images are billed by tokens. */
  function TokenGapOf(p: Pricing, model: string): ImageRow -> int {
    (row: ImageRow) => if HasImageTokenPricing(p, model) && row.key.model == model
                       then row.tally.counts.observed + row.tally.counts.sideChannel - row.tally.tokenUsed else 0
  }

  /** What a cell lacks of a model, negative when it has more than it should. */
  function Gap(p: Pricing, texts: seq<TextRow>, images: seq<ImageRow>, model: string): int {
    if HasMultimodal(p, model) then Total(images, TokenGapOf(p, model)) else Total(texts, TextGapOf(model))
  }

  /** A model without image prices that has image rows. */
  predicate Fallback(p: Pricing, images: seq<ImageRow>, model: string) {
    !HasMultimodal(p, model) && exists row :: row in images && row.key.model == model
  }

  // ---------- the books of a cell ----------

  /** What a cell keeps for its completeness. */
  datatype Books = Books(missing: int, expectedText: map<string, int>, text: map<string, int>,
                         expectedTokens: map<string, int>, tokens: map<string, int>, fallback: set<string>)

  const NO_BOOKS := Books(0, map[], map[], map[], map[], {})

  function BooksOf(a: Acc): Books { Books(a.missing, a.expectedText, a.text, a.expectedTokens, a.tokens, a.fallback) }

  function Added(m: map<string, int>, model: string, n: int): map<string, int> { m[model := At(m, model) + n] }

  /** A text row in the books. */
  function TextBooked(b: Books, row: TextRow): Books {
    var c := row.tally.counts;
    var b := b.(missing := b.missing + c.missing);
    if !row.key.imageRequest then b
    else b.(expectedText := Added(b.expectedText, row.key.model, c.observed + c.sideChannel),
            text := Added(b.text, row.key.model, row.tally.used))
  }

  /** An image row in the books. */
  function ImageBooked(p: Pricing, b: Books, row: ImageRow): Books {
    var model := row.key.model;
    var c := row.tally.counts;
    if !HasMultimodal(p, model) then b.(fallback := b.fallback + {model})
    else if !HasImageTokenPricing(p, model) then b
    else b.(expectedTokens := Added(b.expectedTokens, model, c.observed + c.sideChannel),
            tokens := Added(b.tokens, model, row.tally.tokenUsed))
  }

  function TextBooks(texts: seq<TextRow>): Books {
    if texts == [] then NO_BOOKS else TextBooked(TextBooks(texts[..|texts| - 1]), texts[|texts| - 1])
  }

  function AllBooks(p: Pricing, texts: seq<TextRow>, images: seq<ImageRow>): Books {
    if images == [] then TextBooks(texts)
    else ImageBooked(p, AllBooks(p, texts, images[..|images| - 1]), images[|images| - 1])
  }

  lemma ReasonKeepsBooks(a: Acc, on: bool, r: Reason)
    ensures BooksOf(WithReason(a, on, r)) == BooksOf(a)
  {}

  lemma UnpricedKeepsBooks(a: Acc, model: string)
    ensures BooksOf(Unpriced(a, model)) == BooksOf(a)
  {}

  lemma CountsInBooks(a: Acc, c: Counts)
    ensures BooksOf(WithCounts(a, c)) == BooksOf(a).(missing := a.missing + c.missing)
  {
    hide WithReason, AddCounts;
    var a0 := a.(counts := AddCounts(a.counts, c), missing := a.missing + c.missing);
    var a1 := WithReason(a0, c.requestOnly > 0, RequestOnlyReason);
    var a2 := WithReason(a1, c.missing > 0, MissingUsageReason);
    var a3 := WithReason(a2, c.unsupported > 0, UnsupportedReason);
    ReasonKeepsBooks(a0, c.requestOnly > 0, RequestOnlyReason);
    ReasonKeepsBooks(a1, c.missing > 0, MissingUsageReason);
    ReasonKeepsBooks(a2, c.unsupported > 0, UnsupportedReason);
    ReasonKeepsBooks(a3, c.conflict > 0, UsageConflict);
  }

  lemma TextStepIsBooked(p: Pricing, a: Acc, row: TextRow)
    ensures BooksOf(TextStep(p, a, row)) == TextBooked(BooksOf(a), row)
  {
    hide WithCounts, HasMultimodal, CostText, TextBillable, At, Unpriced;
    CountsInBooks(a, row.tally.counts);
    var c := row.tally.counts;
    var a0 := WithCounts(a, c);
    var model := row.key.model;
    var a1 := if !row.key.imageRequest then a0
              else a0.(expectedText := a0.expectedText[model := At(a0.expectedText, model) + c.observed + c.sideChannel],
                       text := a0.text[model := At(a0.text, model) + row.tally.used]);
    UnpricedKeepsBooks(a1, model);
  }

  lemma {:induction false} DimensionsKeepBooks(p: Pricing, a: Acc, model: string, ds: seq<Dimension>)
    ensures BooksOf(DimensionsStep(p, a, model, ds)) == BooksOf(a)
    decreases ds
  {
    hide CostDimension, Unpriced;
    if ds != [] {
      UnpricedKeepsBooks(a, model);
      DimensionsKeepBooks(p, DimensionStep(p, a, model, ds[0].channel, ds[0].direction, ds[0].amount), model, ds[1..]);
    }
  }

  lemma PerImageKeepsBooks(p: Pricing, a: Acc, row: ImageRow)
    ensures BooksOf(PerImageStep(p, a, row)) == BooksOf(a)
  {
    hide CostImages, Unpriced, WithReason;
    var t := row.tally;
    var (cost, known, defaulted) := CostImages(p, row.key.model, t.inputCount, t.outputCount, row.key.size);
    var a0 := a.(amount := a.amount + cost);
    UnpricedKeepsBooks(a0, row.key.model);
    ReasonKeepsBooks(a0, defaulted && t.outputCount > 0, ImageSizeDefaulted);
    ReasonKeepsBooks(Unpriced(a0, row.key.model), defaulted && t.outputCount > 0, ImageSizeDefaulted);
  }

  lemma ByTokenIsBooked(p: Pricing, a: Acc, row: ImageRow)
    requires HasMultimodal(p, row.key.model) && HasImageTokenPricing(p, row.key.model)
    ensures BooksOf(ByTokenStep(p, a, row)) == ImageBooked(p, BooksOf(a), row)
  {
    hide HasMultimodal, HasImageTokenPricing, DimensionsStep, Dimensions, At;
    DimensionsKeepBooks(p, a, row.key.model, Dimensions(row.tally.tokens));
  }

  lemma ImageStepIsBooked(p: Pricing, a: Acc, row: ImageRow)
    ensures BooksOf(ImageStep(p, a, row)) == ImageBooked(p, BooksOf(a), row)
  {
    hide HasMultimodal, HasImageTokenPricing, HasPerImagePricing, ImageBillable, ByTokenStep, PerImageStep, Unpriced,
      WithReason, BooksOf, Added;
    var a0 := WithReason(a, row.tally.missingOutput > 0, ImageCountMissing);
    ReasonKeepsBooks(a, row.tally.missingOutput > 0, ImageCountMissing);
    var byToken := HasMultimodal(p, row.key.model) && HasImageTokenPricing(p, row.key.model);
    if byToken { ByTokenIsBooked(p, a0, row); }
    var b := if byToken then ByTokenStep(p, a0, row) else a0;
    PerImageKeepsBooks(p, b, row);
    UnpricedKeepsBooks(b, row.key.model);
    FallbackIsBooked(a0, row);
  }

  lemma FallbackIsBooked(a: Acc, row: ImageRow)
    ensures BooksOf(FallbackStep(a, row)) == BooksOf(a).(fallback := BooksOf(a).fallback + {row.key.model})
  {
    hide ImageBillable, Unpriced;
    UnpricedKeepsBooks(a, row.key.model);
  }

  lemma {:induction false} TextFoldIsBooked(p: Pricing, texts: seq<TextRow>)
    ensures BooksOf(TextFold(p, texts)) == TextBooks(texts)
  {
    hide TextStep, TextBooked;
    if texts != [] {
      TextFoldIsBooked(p, texts[..|texts| - 1]);
      TextStepIsBooked(p, TextFold(p, texts[..|texts| - 1]), texts[|texts| - 1]);
    }
  }

  /** The books of a cell depend on its rows alone. */
  lemma {:induction false} FoldIsBooked(p: Pricing, texts: seq<TextRow>, images: seq<ImageRow>)
    ensures BooksOf(Fold(p, texts, images)) == AllBooks(p, texts, images)
    decreases images
  {
    hide ImageStep, ImageBooked, TextFold, TextBooks, BooksOf;
    if images == [] {
      TextFoldIsBooked(p, texts);
    } else {
      FoldIsBooked(p, texts, images[..|images| - 1]);
      ImageStepIsBooked(p, Fold(p, texts, images[..|images| - 1]), images[|images| - 1]);
    }
  }

  // ---------- what the books say ----------

  /** The usage still expected of a model. */
  function Open(expected: map<string, int>, actual: map<string, int>, model: string): int {
    At(expected, model) - At(actual, model)
  }

  lemma AddedOpen(e: map<string, int>, a: map<string, int>, model: string, n: int, k: int, m: string)
    ensures Open(Added(e, model, n), Added(a, model, k), m) == Open(e, a, m) + if m == model then n - k else 0
  {}

  /** The books of the text rows about one model. */
  lemma {:induction false} TextOpen(texts: seq<TextRow>, m: string)
    ensures Open(TextBooks(texts).expectedText, TextBooks(texts).text, m) == Total(texts, TextGapOf(m))
  {
    hide Open, Added;
    if texts == [] {
      assert Open(map[], map[], m) == 0 by { NothingOpen(m); }
    } else {
      var before, last := texts[..|texts| - 1], texts[|texts| - 1];
      var b, c := TextBooks(before), last.tally.counts;
      TextOpen(before, m);
      SplitLast(texts);
      TotalAppend(before, [last], TextGapOf(m));
      TotalOfOne(last, TextGapOf(m));
      AddedOpen(b.expectedText, b.text, last.key.model, c.observed + c.sideChannel, last.tally.used, m);
    }
  }

  lemma NothingOpen(m: string)
    ensures Open(map[], map[], m) == 0
  {}

  /** No image row is in the books of the text rows, and their missing usage adds up. */
  lemma {:induction false} TextOnly(texts: seq<TextRow>)
    ensures TextBooks(texts) == NO_BOOKS.(missing := Total(texts, MissingOf()), expectedText := TextBooks(texts).expectedText,
                                          text := TextBooks(texts).text)
  {
    hide Added;
    if texts != [] {
      var before, last := texts[..|texts| - 1], texts[|texts| - 1];
      TextOnly(before);
      SplitLast(texts);
      TotalAppend(before, [last], MissingOf());
    }
  }

  /** Image rows leave the books of the text rows alone. */
  lemma {:induction false} TextKept(p: Pricing, texts: seq<TextRow>, images: seq<ImageRow>)
    ensures var b, t := AllBooks(p, texts, images), TextBooks(texts);
      b == t.(expectedTokens := b.expectedTokens, tokens := b.tokens, fallback := b.fallback)
    decreases images
  {
    hide Added, HasMultimodal, HasImageTokenPricing, TextBooks;
    if images != [] { TextKept(p, texts, images[..|images| - 1]); }
  }

  lemma {:induction false} TokensOpen(p: Pricing, texts: seq<TextRow>, images: seq<ImageRow>, m: string)
    requires HasMultimodal(p, m)
    ensures Open(AllBooks(p, texts, images).expectedTokens, AllBooks(p, texts, images).tokens, m) == Total(images, TokenGapOf(p, m))
    decreases images
  {
    hide Open, Added, HasMultimodal, HasImageTokenPricing, TextBooks;
    if images == [] {
      TextOnly(texts);
      NothingOpen(m);
    } else {
      var before, last := images[..|images| - 1], images[|images| - 1];
      var b, c := AllBooks(p, texts, before), last.tally.counts;
      TokensOpen(p, texts, before, m);
      SplitLast(images);
      TotalAppend(before, [last], TokenGapOf(p, m));
      TotalOfOne(last, TokenGapOf(p, m));
      AddedOpen(b.expectedTokens, b.tokens, last.key.model, c.observed + c.sideChannel, last.tally.tokenUsed, m);
    }
  }

  /** The models that the image rows put into the books: with token prices, and without image prices. */
  ghost predicate Listed(p: Pricing, images: seq<ImageRow>, b: Books) {
    forall m ::
      && (m in b.fallback <==> Fallback(p, images, m))
      && (m in b.expectedTokens <==> m in b.tokens)
      && (m in b.expectedTokens ==> HasMultimodal(p, m) && exists row :: row in images && row.key.model == m)
  }

  lemma {:induction false} AllListed(p: Pricing, texts: seq<TextRow>, images: seq<ImageRow>)
    ensures Listed(p, images, AllBooks(p, texts, images))
    decreases images
  {
    hide HasMultimodal, HasImageTokenPricing, TextBooks, At;
    if images == [] {
      TextOnly(texts);
    } else {
      var before, last := images[..|images| - 1], images[|images| - 1];
      AllListed(p, texts, before);
      assert forall row :: row in images <==> row in before || row == last;
    }
  }

  // ---------- the missing usage of one cell ----------

  /** Every image request that lacks usage or has more than expected has image rows in the same cell. */
  ghost predicate Covered(p: Pricing, texts: seq<TextRow>, images: seq<ImageRow>) {
    forall row, m | row in texts && !HasMultimodal(p, m) && TextGapOf(m)(row) != 0 :: Fallback(p, images, m)
  }

  /** `models` lists, once each, the models of some rows and possibly more. */
  ghost predicate ListsModels(models: seq<string>, texts: seq<TextRow>, images: seq<ImageRow>) {
    && Distinct(models)
    && (forall row | row in texts :: row.key.model in models)
    && (forall row | row in images :: row.key.model in models)
  }

  /** What is missing of a model in a cell. */
  function ShortIn(p: Pricing, texts: seq<TextRow>, images: seq<ImageRow>): string -> int {
    (m: string) => Max(Gap(p, texts, images, m), 0)
  }

  /** The shortfall over a set of models, along any list that has them. */
  function ShortOn(models: set<string>, expected: map<string, int>, actual: map<string, int>): string -> int {
    (m: string) => if m in models then Short(expected, actual, m) else 0
  }

  lemma {:induction false} ShortfallTotal(models: set<string>, expected: map<string, int>, actual: map<string, int>, ms: seq<string>)
    requires Distinct(ms) && forall m | m in models :: m in ms
    ensures Shortfall(models, expected, actual) == Total(ms, ShortOn(models, expected, actual))
  {
    hide Short;
    if ms == [] {
      assert models == {};
    } else {
      var m, rest := ms[0], ms[1..];
      assert forall x :: x in ms <==> x == m || x in rest;
      ShortfallTotal(models - {m}, expected, actual, rest);
      if m in models {
        ShortfallWithout(models, expected, actual, m);
      } else {
        assert models - {m} == models;
      }
      TotalSame(rest, ShortOn(models - {m}, expected, actual), ShortOn(models, expected, actual));
    }
  }

  /** The two walks over the books of a cell, at one model. */
  lemma ShortAtModel(p: Pricing, texts: seq<TextRow>, images: seq<ImageRow>, m: string)
    requires Covered(p, texts, images)
    ensures var b := AllBooks(p, texts, images);
      ShortOn(b.fallback, b.expectedText, b.text)(m) + ShortOn(b.expectedTokens.Keys, b.expectedTokens, b.tokens)(m)
      == ShortIn(p, texts, images)(m)
  {
    hide HasMultimodal, TokenGapOf, TextGapOf, AllBooks, TextBooks;
    AllListed(p, texts, images);
    if HasMultimodal(p, m) {
      TokensOpen(p, texts, images, m);
    } else {
      TextKept(p, texts, images);
      TextOpen(texts, m);
      if !Fallback(p, images, m) { TotalZero(texts, TextGapOf(m)); }
    }
  }

  /** What is missing in a cell: the requests counted as such, and the shortfall of every model by itself. */
  lemma MissingExactly(p: Pricing, texts: seq<TextRow>, images: seq<ImageRow>, models: seq<string>)
    requires Covered(p, texts, images) && ListsModels(models, texts, images)
    ensures Finalised(Fold(p, texts, images)).missing
         == Total(texts, MissingOf()) + Total(models, ShortIn(p, texts, images))
  {
    hide Fold, Shortfall, ShortOn, ShortIn, Covered, AllBooks, TextBooks, HasMultimodal;
    var b := AllBooks(p, texts, images);
    FoldIsBooked(p, texts, images);
    TextKept(p, texts, images);
    TextOnly(texts);
    AllListed(p, texts, images);
    ShortfallTotal(b.fallback, b.expectedText, b.text, models);
    ShortfallTotal(b.expectedTokens.Keys, b.expectedTokens, b.tokens, models);
    forall m { ShortAtModel(p, texts, images, m); }
    TotalAdds(models, ShortOn(b.fallback, b.expectedText, b.text), ShortOn(b.expectedTokens.Keys, b.expectedTokens, b.tokens),
              ShortIn(p, texts, images));
  }

  // ---------- regrouping ----------

  function CellGap(p: Pricing, g: Grouping, texts: seq<TextRow>, images: seq<ImageRow>, group: CostGroup, m: string): int {
    Gap(p, Part(texts, TextGroup(g), group), Part(images, ImageGroup(g), group), m)
  }

  /** The gap of a model in each cell, and what is missing of it there. */
  function CellGaps(p: Pricing, g: Grouping, texts: seq<TextRow>, images: seq<ImageRow>, m: string): CostGroup -> int {
    (group: CostGroup) => CellGap(p, g, texts, images, group, m)
  }

  function CellShorts(p: Pricing, g: Grouping, texts: seq<TextRow>, images: seq<ImageRow>, m: string): CostGroup -> int {
    (group: CostGroup) => Max(CellGap(p, g, texts, images, group, m), 0)
  }

  /** What is missing of a model over all cells. */
  function CellsShort(p: Pricing, g: Grouping, texts: seq<TextRow>, images: seq<ImageRow>, groups: seq<CostGroup>): string -> int {
    (m: string) => Total(groups, CellShorts(p, g, texts, images, m))
  }

  ghost function MissingIn(p: Pricing, g: Grouping, texts: seq<TextRow>, images: seq<ImageRow>, group: CostGroup): int {
    Finalised(Cell(p, g, texts, images, group)).missing
  }

  /** The missing usage that the cells report. */
  ghost function CellMissing(p: Pricing, g: Grouping, texts: seq<TextRow>, images: seq<ImageRow>): CostGroup -> int {
    (group: CostGroup) => MissingIn(p, g, texts, images, group)
  }

  /** A model that lacks usage in one cell and has more than it should in another. */
  ghost predicate Offset(p: Pricing, g: Grouping, texts: seq<TextRow>, images: seq<ImageRow>, groups: seq<CostGroup>, m: string) {
    (exists a :: a in groups && CellGaps(p, g, texts, images, m)(a) > 0)
    && exists b :: b in groups && CellGaps(p, g, texts, images, m)(b) < 0
  }

  ghost predicate CellsCovered(p: Pricing, g: Grouping, texts: seq<TextRow>, images: seq<ImageRow>) {
    forall group :: Covered(p, Part(texts, TextGroup(g), group), Part(images, ImageGroup(g), group))
  }

  lemma {:induction false} GapsByParts(p: Pricing, g: Grouping, texts: seq<TextRow>, images: seq<ImageRow>,
                                       groups: seq<CostGroup>, m: string)
    ensures Total(groups, CellGaps(p, g, texts, images, m))
         == if HasMultimodal(p, m) then TotalOfParts(images, ImageGroup(g), groups, TokenGapOf(p, m))
            else TotalOfParts(texts, TextGroup(g), groups, TextGapOf(m))
  {
    hide Part, TokenGapOf, TextGapOf, HasMultimodal;
    if groups != [] { GapsByParts(p, g, texts, images, groups[1..], m); }
  }

  /** Over all cells a model misses at least what it misses ungrouped, and just that when it is not offset. */
  lemma ModelRegrouped(p: Pricing, g: Grouping, texts: seq<TextRow>, images: seq<ImageRow>, groups: seq<CostGroup>, m: string)
    requires Lists(groups, texts, TextGroup(g)) && Lists(groups, images, ImageGroup(g))
    ensures ShortIn(p, texts, images)(m) <= CellsShort(p, g, texts, images, groups)(m)
    ensures ShortIn(p, texts, images)(m) == CellsShort(p, g, texts, images, groups)(m) <==> !Offset(p, g, texts, images, groups, m)
  {
    hide CellGap, TokenGapOf, TextGapOf, HasMultimodal, Total, Lists, TextGroup, ImageGroup;
    GapsByParts(p, g, texts, images, groups, m);
    SumByParts(texts, TextGroup(g), groups, (row: TextRow) => 0.0, TextGapOf(m));
    SumByParts(images, ImageGroup(g), groups, (row: ImageRow) => 0.0, TokenGapOf(p, m));
    ClampedTotal(groups, CellGaps(p, g, texts, images, m), CellShorts(p, g, texts, images, m));
  }

  lemma CellModels(p: Pricing, g: Grouping, texts: seq<TextRow>, images: seq<ImageRow>, models: seq<string>, group: CostGroup)
    requires ListsModels(models, texts, images)
    ensures ListsModels(models, Part(texts, TextGroup(g), group), Part(images, ImageGroup(g), group))
  {
    hide Part;
    PartMembers(texts, TextGroup(g), group);
    PartMembers(images, ImageGroup(g), group);
  }

  lemma ShortInCell(p: Pricing, g: Grouping, texts: seq<TextRow>, images: seq<ImageRow>, group: CostGroup, m: string)
    ensures ShortIn(p, Part(texts, TextGroup(g), group), Part(images, ImageGroup(g), group))(m)
         == CellShorts(p, g, texts, images, m)(group)
  {
    hide Gap;
  }

  /** The cells, model by model instead of cell by cell. */
  lemma {:induction false} CellsByModel(p: Pricing, g: Grouping, texts: seq<TextRow>, images: seq<ImageRow>,
                                        groups: seq<CostGroup>, models: seq<string>)
    requires CellsCovered(p, g, texts, images) && ListsModels(models, texts, images)
    ensures Total(groups, CellMissing(p, g, texts, images))
         == TotalOfParts(texts, TextGroup(g), groups, MissingOf()) + Total(models, CellsShort(p, g, texts, images, groups))
  {
    hide Part, Finalised, Fold, ShortIn, CellShorts, Covered, ListsModels, CellsShort;
    if groups == [] {
      forall m | m in models ensures CellsShort(p, g, texts, images, [])(m) == 0 { NoCells(p, g, texts, images, m); }
      TotalZero(models, CellsShort(p, g, texts, images, []));
    } else {
      var group, rest := groups[0], groups[1..];
      CellsByModel(p, g, texts, images, rest, models);
      CellModels(p, g, texts, images, models, group);
      var cellTexts, cellImages := Part(texts, TextGroup(g), group), Part(images, ImageGroup(g), group);
      MissingExactly(p, cellTexts, cellImages, models);
      forall m | m in models
        ensures CellsShort(p, g, texts, images, groups)(m)
             == ShortIn(p, cellTexts, cellImages)(m) + CellsShort(p, g, texts, images, rest)(m)
      {
        OneMoreCell(p, g, texts, images, groups, m);
      }
      TotalAdds(models, ShortIn(p, cellTexts, cellImages), CellsShort(p, g, texts, images, rest),
                CellsShort(p, g, texts, images, groups));
    }
  }

  lemma NoCells(p: Pricing, g: Grouping, texts: seq<TextRow>, images: seq<ImageRow>, m: string)
    ensures CellsShort(p, g, texts, images, [])(m) == 0
  {}

  lemma OneMoreCell(p: Pricing, g: Grouping, texts: seq<TextRow>, images: seq<ImageRow>, groups: seq<CostGroup>, m: string)
    requires groups != []
    ensures CellsShort(p, g, texts, images, groups)(m)
         == ShortIn(p, Part(texts, TextGroup(g), groups[0]), Part(images, ImageGroup(g), groups[0]))(m)
            + CellsShort(p, g, texts, images, groups[1..])(m)
  {
    hide Gap, Part, CellGap, ShortIn;
    ShortInCell(p, g, texts, images, groups[0], m);
  }

  /** What covers the cells covers all rows together. */
  lemma CoveredTogether(p: Pricing, g: Grouping, texts: seq<TextRow>, images: seq<ImageRow>)
    requires CellsCovered(p, g, texts, images)
    ensures Covered(p, texts, images)
  {
    hide HasMultimodal, TextGapOf, TextGroup, ImageGroup, Part;
    forall row, m | row in texts && !HasMultimodal(p, m) && TextGapOf(m)(row) != 0 ensures Fallback(p, images, m) {
      var group := TextGroup(g)(row);
      PartMembers(texts, TextGroup(g), group);
      PartMembers(images, ImageGroup(g), group);
      assert Covered(p, Part(texts, TextGroup(g), group), Part(images, ImageGroup(g), group));
      assert row in Part(texts, TextGroup(g), group);
      assert Fallback(p, Part(images, ImageGroup(g), group), m);
    }
  }

  lemma {:induction false} ListOf(models: set<string>) returns (ms: seq<string>)
    ensures Distinct(ms) && forall m :: m in ms <==> m in models
  {
    if models == {} {
      ms := [];
    } else {
      var m :| m in models;
      var rest := ListOf(models - {m});
      ms := [m] + rest;
    }
  }

  lemma ModelsOf(texts: seq<TextRow>, images: seq<ImageRow>) returns (models: seq<string>)
    ensures ListsModels(models, texts, images)
  {
    var some := (set row | row in texts :: row.key.model) + (set row | row in images :: row.key.model);
    models := ListOf(some);
    forall row | row in texts ensures row.key.model in models { assert row.key.model in some; }
    forall row | row in images ensures row.key.model in models { assert row.key.model in some; }
  }

  /** A model without rows has no gap anywhere. */
  lemma NoRowsNoOffset(p: Pricing, g: Grouping, texts: seq<TextRow>, images: seq<ImageRow>, groups: seq<CostGroup>,
                       models: seq<string>, m: string)
    requires ListsModels(models, texts, images) && m !in models
    ensures !Offset(p, g, texts, images, groups, m)
  {
    hide HasMultimodal, HasImageTokenPricing, Part;
    forall group ensures CellGap(p, g, texts, images, group, m) == 0 {
      PartMembers(texts, TextGroup(g), group);
      PartMembers(images, ImageGroup(g), group);
      TotalZero(Part(texts, TextGroup(g), group), TextGapOf(m));
      TotalZero(Part(images, ImageGroup(g), group), TokenGapOf(p, m));
    }
  }

  /**
   The cells of a report miss together at least what the ungrouped report misses, and just that exactly when no model
   lacks usage in one cell and has more than it should in another.
   */
  lemma RegroupingCanMissMore(p: Pricing, g: Grouping, texts: seq<TextRow>, images: seq<ImageRow>, groups: seq<CostGroup>)
    requires Lists(groups, texts, TextGroup(g)) && Lists(groups, images, ImageGroup(g)) && CellsCovered(p, g, texts, images)
    ensures var summary := Finalised(Fold(p, texts, images)).missing;
      var cells := Total(groups, CellMissing(p, g, texts, images));
      summary <= cells && (summary == cells <==> forall m :: !Offset(p, g, texts, images, groups, m))
  {
    hide Finalised, Fold, CellMissing, ShortIn, CellsShort, Offset, CellsCovered, Covered, ListsModels, Lists, TextGroup, ImageGroup;
    var models := ModelsOf(texts, images);
    CoveredTogether(p, g, texts, images);
    MissingExactly(p, texts, images, models);
    CellsByModel(p, g, texts, images, groups, models);
    SumByParts(texts, TextGroup(g), groups, (row: TextRow) => 0.0, MissingOf());
    forall m { ModelRegrouped(p, g, texts, images, groups, m); }
    TotalBelow(models, ShortIn(p, texts, images), CellsShort(p, g, texts, images, groups));
    forall m | m !in models { NoRowsNoOffset(p, g, texts, images, groups, models, m); }
  }

  // ---------- stored requests ----------

  lemma {:induction false} EntryMember(rs: seq<Request>, r: Request, image: Image)
    requires r in rs && image in r.images
    ensures Entry(r, image) in Entries(rs)
  {
    if r == rs[0] { EntryOfImage(r, r.images, image); } else { EntryMember(rs[1..], r, image); }
  }

  lemma {:induction false} EntryOfImage(r: Request, images: seq<Image>, image: Image)
    requires image in images
    ensures Entry(r, image) in EntriesOf(r, images)
  {
    if image != images[0] { EntryOfImage(r, images[1..], image); }
  }

  /** A text row with a gap has a request. */
  lemma GapHasRequest(rs: seq<Request>, f: Filter, k: TextKey, m: string) returns (r: Request)
    requires TextGapOf(m)(TextRowOf(rs, f, k)) != 0
    ensures r in rs && TextKeyOf(f)(r) == k && r.images != [] && r.model == m
  {
    PartMembers(rs, TextKeyOf(f), k);
    var part := Part(rs, TextKeyOf(f), k);
    assert part != [] by { assert NO_TEXT.counts == NO_COUNTS; }
    r := part[0];
    assert r in part;
  }

  /** The text row of an image request shares the cell of its first image row, in the ungrouped report and in every other. */
  lemma RequestsAreCovered(p: Pricing, g: Grouping, f: Filter, rs: seq<Request>, textKeys: seq<TextKey>, imageKeys: seq<ImageKey>)
    requires g.byOperation ==> f.byOperation
    requires Lists(imageKeys, Entries(rs), ImageKeyOf(f))
    ensures CellsCovered(p, g, TextRows(rs, f, textKeys), ImageRows(Entries(rs), f, imageKeys))
  {
    hide HasMultimodal, TextGapOf, Part, Entries, TextRows, ImageRows, TextTotal, ImageTotal;
    var texts, images := TextRows(rs, f, textKeys), ImageRows(Entries(rs), f, imageKeys);
    forall group ensures Covered(p, Part(texts, TextGroup(g), group), Part(images, ImageGroup(g), group)) {
      PartMembers(texts, TextGroup(g), group);
      PartMembers(images, ImageGroup(g), group);
      forall row, m | row in Part(texts, TextGroup(g), group) && !HasMultimodal(p, m) && TextGapOf(m)(row) != 0
        ensures Fallback(p, Part(images, ImageGroup(g), group), m)
      {
        TextRowFrom(rs, f, textKeys, row);
        var r := GapHasRequest(rs, f, row.key, m);
        EntryMember(rs, r, r.images[0]);
        var k := ImageKeyOf(f)(Entry(r, r.images[0]));
        ImageRowMember(Entries(rs), f, imageKeys, k);
        KeyOfRow(Entries(rs), f, k);
        assert ImageRowOf(Entries(rs), f, k) in Part(images, ImageGroup(g), group);
      }
    }
  }

  /** For stored requests: the cells miss at least what the summary misses, with equality as above. */
  lemma ReportCanMissMore(p: Pricing, g: Grouping, rs: seq<Request>, f: Filter,
                          textKeys: seq<TextKey>, imageKeys: seq<ImageKey>, groups: seq<CostGroup>)
    requires g.byOperation ==> f.byOperation
    requires Lists(imageKeys, Entries(rs), ImageKeyOf(f))
    requires Lists(groups, TextRows(rs, f, textKeys), TextGroup(g))
    requires Lists(groups, ImageRows(Entries(rs), f, imageKeys), ImageGroup(g))
    ensures var texts, images := TextRows(rs, f, textKeys), ImageRows(Entries(rs), f, imageKeys);
      var summary := Finalised(Fold(p, texts, images)).missing;
      var cells := Total(groups, CellMissing(p, g, texts, images));
      summary <= cells && (summary == cells <==> forall m :: !Offset(p, g, texts, images, groups, m))
  {
    hide Finalised, Fold, CellMissing, Offset, CellsCovered, Lists, TextGroup, ImageGroup, TextRows, ImageRows, Entries;
    RequestsAreCovered(p, g, f, rs, textKeys, imageKeys);
    RegroupingCanMissMore(p, g, TextRows(rs, f, textKeys), ImageRows(Entries(rs), f, imageKeys), groups);
  }

  // ---------- one request made up for by another ----------

  lemma OneRequestRow(r: Request)
    ensures TextTotal([r]) == AddText(TextTallyOf(r), NO_TEXT)
  {
    assert [r][1..] == [];
  }

  /** Two requests in text buckets of their own. */
  lemma TwoTextRows(a: Request, b: Request, f: Filter)
    requires TextKeyOf(f)(a) != TextKeyOf(f)(b)
    ensures TextRows([a, b], f, [TextKeyOf(f)(a), TextKeyOf(f)(b)])
         == [TextRow(TextKeyOf(f)(a), AddText(TextTallyOf(a), NO_TEXT)), TextRow(TextKeyOf(f)(b), AddText(TextTallyOf(b), NO_TEXT))]
  {
    hide TextTallyOf, TextKeyOf, Part, TextTotal;
    var k1, k2 := TextKeyOf(f)(a), TextKeyOf(f)(b);
    PartOfTwo(a, b, TextKeyOf(f), k1);
    PartOfTwo(a, b, TextKeyOf(f), k2);
    ConcatEmpty([a]);
    ConcatEmpty([b]);
    OneRequestRow(a);
    OneRequestRow(b);
    assert [k1, k2][1..] == [k2] && [k2][1..] == [];
    assert TextRows([a, b], f, [k2]) == [TextRowOf([a, b], f, k2)];
  }

  /** The missing usage of rows of one model without image prices and without requests counted as missing. */
  lemma MissingOfOneModel(p: Pricing, texts: seq<TextRow>, images: seq<ImageRow>, m: string)
    requires Covered(p, texts, images) && !HasMultimodal(p, m)
    requires forall row | row in texts :: row.key.model == m && MissingOf()(row) == 0
    requires forall row | row in images :: row.key.model == m
    ensures Finalised(Fold(p, texts, images)).missing == Max(Total(texts, TextGapOf(m)), 0)
  {
    hide Covered, HasMultimodal, Finalised, Fold, TextGapOf;
    MissingExactly(p, texts, images, [m]);
    TotalZero(texts, MissingOf());
    TotalOfOne(m, ShortIn(p, texts, images));
  }

  lemma CellOfOne(p: Pricing, g: Grouping, row: TextRow, other: TextRow, images: seq<ImageRow>, m: string)
    requires CellsCovered(p, g, [row, other], images) && !HasMultimodal(p, m)
    requires TextGroup(g)(row) != TextGroup(g)(other)
    requires row.key.model == m && MissingOf()(row) == 0 && forall i | i in images :: i.key.model == m
    ensures Finalised(Cell(p, g, [row, other], images, TextGroup(g)(row))).missing == Max(TextGapOf(m)(row), 0)
  {
    hide Covered, HasMultimodal, Finalised, Fold, TextGapOf, MissingOf, Part, TextGroup, ImageGroup;
    var group := TextGroup(g)(row);
    PartOfTwo(row, other, TextGroup(g), group);
    ConcatEmpty([row]);
    PartMembers(images, ImageGroup(g), group);
    assert Covered(p, Part([row, other], TextGroup(g), group), Part(images, ImageGroup(g), group));
    MissingOfOneModel(p, [row], Part(images, ImageGroup(g), group), m);
    TotalOfOne(row, TextGapOf(m));
  }

  /** One image each, of different keys. */
  lemma TwoEntries(a: Request, b: Request, image: Image)
    requires a.images == [image] == b.images
    ensures Entries([a, b]) == [Entry(a, image), Entry(b, image)]
  {
    assert [image][1..] == [] && [a, b][1..] == [b] && [b][1..] == [];
    assert EntriesOf(a, [image]) == [Entry(a, image)] + [] && EntriesOf(b, [image]) == [Entry(b, image)] + [];
    assert Entries([b]) == [Entry(b, image)] + [];
  }

  lemma ModelsOfImageRows(es: seq<Entry>, f: Filter, keys: seq<ImageKey>, m: string)
    requires forall k | k in keys :: k.model == m
    ensures forall row | row in ImageRows(es, f, keys) :: row.key.model == m
  {
    hide ImageRows, ImageTotal;
    forall row | row in ImageRows(es, f, keys) ensures row.key.model == m { var k := ImageRowFrom(es, f, keys, row); }
  }

  /** The row of an image request by itself lacks usage, has usage it was not expected to have, or neither. */
  lemma GapOfOne(r: Request, k: TextKey, expected: bool, used: bool)
    requires k.model == r.model && k.imageRequest
    requires TextTallyOf(r).used == One(used) && TextTallyOf(r).counts == CountOf(if expected then Observed else Conflict)
    ensures var row := TextRow(k, AddText(TextTallyOf(r), NO_TEXT));
      TextGapOf(r.model)(row) == One(expected) - One(used) && MissingOf()(row) == 0 && row.key == k
  {
    hide TextTallyOf;
  }

  lemma TallyOfLacking(r: Request)
    requires r.capture == Capture(false, "", "", "captured")
    requires r.input == 0 == r.output && r.reasoning == 0 == r.cached && r.creation == 0
    ensures TextTallyOf(r).used == One(false) && TextTallyOf(r).counts == CountOf(Observed)
  {}

  lemma TallyOfConflict(r: Request)
    requires r.capture.conflict && r.input > 0
    ensures TextTallyOf(r).used == One(true) && TextTallyOf(r).counts == CountOf(Conflict)
  {}

  /** Two image requests with one image each, of different keys. */
  predicate Pair(a: Request, b: Request, image: Image, m: string) {
    a.images == [image] == b.images && a.model == m == b.model && a.keyHash != b.keyHash
  }

  const BY_KEY := Grouping(false, true, false, false)

  const KEYED := Filter(false, true, false)

  lemma PairIsListed(a: Request, b: Request, image: Image, m: string)
    requires Pair(a, b, image, m)
    ensures Entries([a, b]) == [Entry(a, image), Entry(b, image)]
    ensures Lists([TextKeyOf(KEYED)(a), TextKeyOf(KEYED)(b)], [a, b], TextKeyOf(KEYED))
    ensures Lists([ImageKeyOf(KEYED)(Entry(a, image)), ImageKeyOf(KEYED)(Entry(b, image))], Entries([a, b]), ImageKeyOf(KEYED))
    ensures var keys := [ImageKeyOf(KEYED)(Entry(a, image)), ImageKeyOf(KEYED)(Entry(b, image))];
      forall row | row in ImageRows(Entries([a, b]), KEYED, keys) :: row.key.model == m
  {
    TwoEntries(a, b, image);
    hide Entries;
    var k1, k2 := TextKeyOf(KEYED)(a), TextKeyOf(KEYED)(b);
    var i1, i2 := ImageKeyOf(KEYED)(Entry(a, image)), ImageKeyOf(KEYED)(Entry(b, image));
    assert k1.keyHash != k2.keyHash && i1.keyHash != i2.keyHash;
    assert k1 in [k1, k2] && k2 in [k1, k2] && i1 in [i1, i2] && i2 in [i1, i2];
    ModelsOfImageRows(Entries([a, b]), KEYED, [i1, i2], m);
  }

  /** By key a cell misses what its row lacks; the summary has both rows together. */
  lemma MissingOfRows(p: Pricing, row1: TextRow, row2: TextRow, images: seq<ImageRow>, m: string)
    requires CellsCovered(p, BY_KEY, [row1, row2], images) && !HasMultimodal(p, m)
    requires row1.key.model == m == row2.key.model && forall i | i in images :: i.key.model == m
    requires row1.key.keyHash != row2.key.keyHash
    requires TextGapOf(m)(row1) == 1 && TextGapOf(m)(row2) == -1 && MissingOf()(row1) == 0 == MissingOf()(row2)
    ensures Finalised(Fold(p, [row1, row2], images)).missing == 0
    ensures Finalised(Cell(p, BY_KEY, [row1, row2], images, CostGroup("", row1.key.keyHash, "", ""))).missing == 1
  {
    assert TextGroup(BY_KEY)(row1) == CostGroup("", row1.key.keyHash, "", "") != TextGroup(BY_KEY)(row2);
    hide HasMultimodal, TextGapOf, MissingOf, Covered, CellsCovered, Finalised, Fold, Cell, TextGroup;
    CoveredTogether(p, BY_KEY, [row1, row2], images);
    MissingOfOneModel(p, [row1, row2], images, m);
    TotalOfTwo(row1, row2, TextGapOf(m));
    CellOfOne(p, BY_KEY, row1, row2, images, m);
  }

  /** The text rows of such a pair. */
  lemma RowsOfPair(a: Request, b: Request, image: Image, m: string) returns (row1: TextRow, row2: TextRow)
    requires Pair(a, b, image, m)
    requires TextTallyOf(a).used == One(false) && TextTallyOf(a).counts == CountOf(Observed)
    requires TextTallyOf(b).used == One(true) && TextTallyOf(b).counts == CountOf(Conflict)
    ensures TextRows([a, b], KEYED, [TextKeyOf(KEYED)(a), TextKeyOf(KEYED)(b)]) == [row1, row2]
    ensures row1.key.model == m == row2.key.model && row1.key.keyHash == a.keyHash != row2.key.keyHash
    ensures TextGapOf(m)(row1) == 1 && TextGapOf(m)(row2) == -1 && MissingOf()(row1) == 0 == MissingOf()(row2)
  {
    var k1, k2 := TextKeyOf(KEYED)(a), TextKeyOf(KEYED)(b);
    assert k1.keyHash == a.keyHash && k2.keyHash == b.keyHash && k1.model == m == k2.model && k1.imageRequest && k2.imageRequest;
    hide TextTallyOf, AddText, TextRows, TextKeyOf, TextGapOf, MissingOf, One, CountOf;
    TwoTextRows(a, b, KEYED);
    GapOfOne(a, k1, true, false);
    GapOfOne(b, k2, false, true);
    OneIs();
    row1, row2 := TextRow(k1, AddText(TextTallyOf(a), NO_TEXT)), TextRow(k2, AddText(TextTallyOf(b), NO_TEXT));
  }

  lemma MissingOfPair(p: Pricing, a: Request, b: Request, image: Image, m: string)
    requires Pair(a, b, image, m) && !HasMultimodal(p, m)
    requires TextTallyOf(a).used == One(false) && TextTallyOf(a).counts == CountOf(Observed)
    requires TextTallyOf(b).used == One(true) && TextTallyOf(b).counts == CountOf(Conflict)
    ensures var texts := TextRows([a, b], KEYED, [TextKeyOf(KEYED)(a), TextKeyOf(KEYED)(b)]);
      var images := ImageRows(Entries([a, b]), KEYED, [ImageKeyOf(KEYED)(Entry(a, image)), ImageKeyOf(KEYED)(Entry(b, image))]);
      && Finalised(Fold(p, texts, images)).missing == 0
      && Finalised(Cell(p, BY_KEY, texts, images, CostGroup("", a.keyHash, "", ""))).missing == 1
  {
    hide TextTallyOf, HasMultimodal, Entries, ImageRows, TextRows, Lists, TextKeyOf, ImageKeyOf, TextGapOf, MissingOf,
      CellsCovered, Finalised, Fold, Cell, One, CountOf, Pair;
    var imageKeys := [ImageKeyOf(KEYED)(Entry(a, image)), ImageKeyOf(KEYED)(Entry(b, image))];
    PairIsListed(a, b, image, m);
    var row1, row2 := RowsOfPair(a, b, image, m);
    RequestsAreCovered(p, BY_KEY, KEYED, [a, b], [TextKeyOf(KEYED)(a), TextKeyOf(KEYED)(b)], imageKeys);
    MissingOfRows(p, row1, row2, ImageRows(Entries([a, b]), KEYED, imageKeys), m);
  }

  lemma OneIs()
    ensures One(true) == 1 && One(false) == 0
  {}

  /**
   Two image requests of a model without image prices, of different keys: one should have reported usage and did not,
   the other is in conflict and has some. By key one cell misses a request, the summary over the same rows none.
   */
  lemma SummaryHidesMissing()
    returns (p: Pricing, rs: seq<Request>, textKeys: seq<TextKey>, imageKeys: seq<ImageKey>, group: CostGroup)
    ensures Lists(textKeys, rs, TextKeyOf(KEYED)) && Lists(imageKeys, Entries(rs), ImageKeyOf(KEYED))
    ensures var texts, images := TextRows(rs, KEYED, textKeys), ImageRows(Entries(rs), KEYED, imageKeys);
      Finalised(Fold(p, texts, images)).missing == 0 && Finalised(Cell(p, BY_KEY, texts, images, group)).missing == 1
  {
    p := Pricing(map["m" := ModelPrice(1.0, 1.0, 1.0, 0.0, 0.0, None)], map[], map[], map[]);
    assert !HasMultimodal(p, "m");
    var image := Image("generate", "", 0, 1, 0);
    var lacking := Request("", "a", "m", 200, 0, 0, 0, 0, 0, [image], NO_TOKENS, Capture(false, "", "", "captured"));
    var having := lacking.(keyHash := "b", input := 1, capture := Capture(true, "", "", "captured"));
    assert "a"[0] != "b"[0];
    hide TextTallyOf, HasMultimodal, Entries, ImageRows, TextRows, Lists, Finalised, Fold, Cell, One, CountOf;
    TallyOfLacking(lacking);
    TallyOfConflict(having);
    PairIsListed(lacking, having, image, "m");
    MissingOfPair(p, lacking, having, image, "m");
    rs, textKeys := [lacking, having], [TextKeyOf(KEYED)(lacking), TextKeyOf(KEYED)(having)];
    imageKeys := [ImageKeyOf(KEYED)(Entry(lacking, image)), ImageKeyOf(KEYED)(Entry(having, image))];
    group := CostGroup("", lacking.keyHash, "", "");
  }
}
