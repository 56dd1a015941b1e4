/** Regrouping the priced buckets into report cells. */
module CostReport {
  import opened Bytes
  import opened Sums
  import opened Pricing
  import opened CostBuckets
  import opened ImageBuckets

  datatype Reason = UnpricedModel | MissingUsageReason | RequestOnlyReason | UnsupportedReason | UsageConflict
                  | ImageCountMissing | ImageSizeDefaulted | CostQueryFailed

  const REASON_ORDER := [UnpricedModel, MissingUsageReason, RequestOnlyReason, UnsupportedReason, UsageConflict,
                         ImageCountMissing, ImageSizeDefaulted, CostQueryFailed]

  datatype CostState = Complete | Partial

  datatype CostResult = CostResult(amount: real, costKnown: bool, state: CostState, unpricedModels: int,
                                   reasons: seq<Reason>, counts: Counts, missingUsage: int)

  datatype CostGroup = CostGroup(bucket: string, keyHash: string, model: string, operation: string)

  datatype Grouping = Grouping(byBucket: bool, byKey: bool, byModel: bool, byOperation: bool)

  function MakeCostGroup(g: Grouping, bucket: string, keyHash: string, model: string, operation: string): CostGroup {
    CostGroup(if g.byBucket then bucket else "", if g.byKey then keyHash else "", if g.byModel then model else "",
              if g.byOperation then operation else "")
  }

  function TextGroup(g: Grouping): TextRow -> CostGroup {
    (row: TextRow) => MakeCostGroup(g, row.key.bucket, row.key.keyHash, row.key.model, row.key.operation)
  }

  function ImageGroup(g: Grouping): ImageRow -> CostGroup {
    (row: ImageRow) => MakeCostGroup(g, row.key.bucket, row.key.keyHash, row.key.model, row.key.operation)
  }

  /** Rows share a cell exactly when they agree in every column that is grouped by. */
  lemma GroupsExactly(g: Grouping, a: TextRow, b: TextRow, i: ImageRow)
    ensures TextGroup(g)(a) == TextGroup(g)(b) <==>
              && (g.byBucket ==> a.key.bucket == b.key.bucket) && (g.byKey ==> a.key.keyHash == b.key.keyHash)
              && (g.byModel ==> a.key.model == b.key.model) && (g.byOperation ==> a.key.operation == b.key.operation)
    ensures TextGroup(g)(a) == ImageGroup(g)(i) <==>
              && (g.byBucket ==> a.key.bucket == i.key.bucket) && (g.byKey ==> a.key.keyHash == i.key.keyHash)
              && (g.byModel ==> a.key.model == i.key.model) && (g.byOperation ==> a.key.operation == i.key.operation)
  {}

  // ---------- one cell, on values ----------

  datatype Acc = Acc(amount: real, priceKnown: bool, textPriced: set<string>,
                     expectedText: map<string, int>, text: map<string, int>,
                     expectedTokens: map<string, int>, tokens: map<string, int>,
                     fallback: set<string>, unpriced: set<string>, reasons: set<Reason>,
                     counts: Counts, missing: int)

  const NEW_ACC := Acc(0.0, true, {}, map[], map[], map[], map[], {}, {}, {}, NO_COUNTS, 0)

  /** A missing key of a Go map reads as zero. */
  function At(m: map<string, int>, k: string): int { if k in m then m[k] else 0 }

  function WithReason(a: Acc, on: bool, r: Reason): Acc { if on then a.(reasons := a.reasons + {r}) else a }

  function Unpriced(a: Acc, model: string): Acc {
    a.(priceKnown := false, unpriced := a.unpriced + {model}, reasons := a.reasons + {UnpricedModel})
  }

  function WithCounts(a: Acc, c: Counts): Acc {
    var a := a.(counts := AddCounts(a.counts, c), missing := a.missing + c.missing);
    var a := WithReason(a, c.requestOnly > 0, RequestOnlyReason);
    var a := WithReason(a, c.missing > 0, MissingUsageReason);
    var a := WithReason(a, c.unsupported > 0, UnsupportedReason);
    WithReason(a, c.conflict > 0, UsageConflict)
  }

  predicate TextBillable(t: TextTally) {
    t.input > 0 || t.output > 0 || t.reasoning > 0 || t.cached > 0 || t.creation > 0
  }

  predicate ImageBillable(t: ImageTally) { t.inputCount > 0 || t.outputCount > 0 || AnyToken(t.tokens) }

  function RowText(p: Pricing, row: TextRow): Option<real> {
    CostText(p, row.key.model, row.key.requestInput, row.tally.input, row.tally.output,
             row.tally.reasoning, row.tally.cached, row.tally.creation)
  }

  function TextStep(p: Pricing, a: Acc, row: TextRow): Acc {
    var model := row.key.model;
    var c := row.tally.counts;
    var a := WithCounts(a, c);
    var a := if !row.key.imageRequest then a
             else a.(expectedText := a.expectedText[model := At(a.expectedText, model) + c.observed + c.sideChannel],
                     text := a.text[model := At(a.text, model) + row.tally.used]);
    if row.key.imageRequest && HasMultimodal(p, model) then a
    else match RowText(p, row)
    case Some(cost) => a.(textPriced := a.textPriced + {model}, amount := a.amount + cost)
    case None => if TextBillable(row.tally) then Unpriced(a, model) else a
  }

  function DimensionStep(p: Pricing, a: Acc, model: string, channel: Channel, direction: Direction, amount: int): Acc {
    if amount <= 0 then a
    else match CostDimension(p, model, channel, direction, amount)
    case None => Unpriced(a, model)
    case Some(cost) => a.(amount := a.amount + cost)
  }

  function DimensionsStep(p: Pricing, a: Acc, model: string, ds: seq<Dimension>): Acc
    decreases ds
  {
    if ds == [] then a
    else DimensionsStep(p, DimensionStep(p, a, model, ds[0].channel, ds[0].direction, ds[0].amount), model, ds[1..])
  }

  function PerImageStep(p: Pricing, a: Acc, row: ImageRow): Acc {
    var t := row.tally;
    var (cost, known, defaulted) := CostImages(p, row.key.model, t.inputCount, t.outputCount, row.key.size);
    var a := a.(amount := a.amount + cost);
    var a := if !known && (t.inputCount > 0 || t.outputCount > 0) then Unpriced(a, row.key.model) else a;
    WithReason(a, defaulted && t.outputCount > 0, ImageSizeDefaulted)
  }

  function ByTokenStep(p: Pricing, a: Acc, row: ImageRow): Acc {
    var model := row.key.model;
    var c := row.tally.counts;
    var a := DimensionsStep(p, a, model, Dimensions(row.tally.tokens));
    a.(expectedTokens := a.expectedTokens[model := At(a.expectedTokens, model) + c.observed + c.sideChannel],
       tokens := a.tokens[model := At(a.tokens, model) + row.tally.tokenUsed])
  }

  function MultimodalStep(p: Pricing, a: Acc, row: ImageRow): Acc {
    var model := row.key.model;
    var byToken := HasImageTokenPricing(p, model);
    var byImage := HasPerImagePricing(p, model);
    var a := if byToken then ByTokenStep(p, a, row) else a;
    var a := if byImage then PerImageStep(p, a, row) else a;
    if !byToken && !byImage && ImageBillable(row.tally) then Unpriced(a, model) else a
  }

  function FallbackStep(a: Acc, row: ImageRow): Acc {
    var model := row.key.model;
    var a := if ImageBillable(row.tally) && model !in a.textPriced then Unpriced(a, model) else a;
    a.(fallback := a.fallback + {model})
  }

  function ImageStep(p: Pricing, a: Acc, row: ImageRow): Acc {
    var a := WithReason(a, row.tally.missingOutput > 0, ImageCountMissing);
    if HasMultimodal(p, row.key.model) then MultimodalStep(p, a, row) else FallbackStep(a, row)
  }

  function TextFold(p: Pricing, rows: seq<TextRow>): Acc {
    if rows == [] then NEW_ACC else TextStep(p, TextFold(p, rows[..|rows| - 1]), rows[|rows| - 1])
  }

  /** A cell after all of its text rows and then its image rows. */
  function Fold(p: Pricing, texts: seq<TextRow>, images: seq<ImageRow>): Acc {
    if images == [] then TextFold(p, texts)
    else ImageStep(p, Fold(p, texts, images[..|images| - 1]), images[|images| - 1])
  }

  /** The cell of a group in a report. */
  function Cell(p: Pricing, g: Grouping, texts: seq<TextRow>, images: seq<ImageRow>, group: CostGroup): Acc {
    Fold(p, Part(texts, TextGroup(g), group), Part(images, ImageGroup(g), group))
  }

  /** A bucket is billable unless it has nothing to bill. */
  lemma BillableExactly(t: TextTally, i: ImageTally)
    requires t.input >= 0 && t.output >= 0 && t.reasoning >= 0 && t.cached >= 0 && t.creation >= 0 && ImageTallyOk(i)
    ensures TextBillable(t) <==> (t.input, t.output, t.reasoning, t.cached, t.creation) != (0, 0, 0, 0, 0)
    ensures ImageBillable(i) <==> i.inputCount > 0 || i.outputCount > 0 || i.tokens != NO_TOKENS
  {
    AnyTokenExactly(i.tokens);
  }

  // ---------- what a cell amounts to ----------

  /** A cell lists unpriced models exactly when it is not fully priced and gives that as a reason. */
  predicate Coherent(a: Acc) { a.priceKnown == (a.unpriced == {}) && (UnpricedModel in a.reasons <==> a.unpriced != {}) }

  /** `b` is `a` with `amount` more and `unpriced` more, and the rest of the book-keeping coherent. */
  predicate Adds(a: Acc, b: Acc, amount: real, unpriced: set<string>) {
    b.amount == a.amount + amount && b.unpriced == a.unpriced + unpriced && (Coherent(a) ==> Coherent(b))
  }

  predicate SameText(a: Acc, b: Acc) { b.textPriced == a.textPriced && b.counts == a.counts }

  function Only(on: bool, model: string): set<string> { if on then {model} else {} }

  lemma ReasonAdds(a: Acc, on: bool, r: Reason)
    requires r != UnpricedModel
    ensures Adds(a, WithReason(a, on, r), 0.0, {}) && SameText(a, WithReason(a, on, r))
  {}

  lemma UnpricedAdds(a: Acc, model: string)
    ensures Adds(a, Unpriced(a, model), 0.0, {model}) && SameText(a, Unpriced(a, model))
  {}

  lemma CountsAdd(a: Acc, c: Counts)
    ensures Adds(a, WithCounts(a, c), 0.0, {})
    ensures WithCounts(a, c).textPriced == a.textPriced && WithCounts(a, c).counts == AddCounts(a.counts, c)
  {
    hide WithReason, AddCounts;
    var a0 := a.(counts := AddCounts(a.counts, c), missing := a.missing + c.missing);
    var a1 := WithReason(a0, c.requestOnly > 0, RequestOnlyReason);
    var a2 := WithReason(a1, c.missing > 0, MissingUsageReason);
    var a3 := WithReason(a2, c.unsupported > 0, UnsupportedReason);
    ReasonAdds(a0, c.requestOnly > 0, RequestOnlyReason);
    ReasonAdds(a1, c.missing > 0, MissingUsageReason);
    ReasonAdds(a2, c.unsupported > 0, UnsupportedReason);
    ReasonAdds(a3, c.conflict > 0, UsageConflict);
  }

  predicate TextSkipped(p: Pricing, row: TextRow) { row.key.imageRequest && HasMultimodal(p, row.key.model) }

  /** A billable text row without a price. */
  predicate TextUnpriced(p: Pricing, row: TextRow) {
    !TextSkipped(p, row) && RowText(p, row).None? && TextBillable(row.tally)
  }

  predicate TextPriced(p: Pricing, row: TextRow) { !TextSkipped(p, row) && RowText(p, row).Some? }

  lemma TextStepAdds(p: Pricing, a: Acc, row: TextRow)
    ensures var b := TextStep(p, a, row);
      && Adds(a, b, TextRowCost(p)(row), Only(TextUnpriced(p, row), row.key.model))
      && b.textPriced == a.textPriced + Only(TextPriced(p, row), row.key.model)
      && b.counts == AddCounts(a.counts, row.tally.counts)
  {
    hide WithCounts, CostText, HasMultimodal, AddCounts, At, TextBillable;
    CountsAdd(a, row.tally.counts);
  }

  predicate DimensionUnpriced(p: Pricing, model: string, channel: Channel, direction: Direction, amount: int) {
    CostDimension(p, model, channel, direction, amount).None?
  }

  lemma DimensionStepAdds(p: Pricing, a: Acc, model: string, channel: Channel, direction: Direction, amount: int)
    ensures var b := DimensionStep(p, a, model, channel, direction, amount);
      && Adds(a, b, DimensionAmount(p, model, channel, direction, amount),
              Only(DimensionUnpriced(p, model, channel, direction, amount), model))
      && SameText(a, b)
  {
    hide LookupMultimodal, TokenRate, Charge;
  }

  predicate AnyUnpriced(p: Pricing, model: string, ds: seq<Dimension>) {
    exists d :: d in ds && DimensionUnpriced(p, model, d.channel, d.direction, d.amount)
  }

  lemma {:induction false} DimensionsStepAdds(p: Pricing, a: Acc, model: string, ds: seq<Dimension>)
    ensures Adds(a, DimensionsStep(p, a, model, ds), Sum(ds, DimensionCost(p, model)), Only(AnyUnpriced(p, model, ds), model))
    ensures SameText(a, DimensionsStep(p, a, model, ds))
    decreases ds
  {
    hide DimensionStep, DimensionAmount, DimensionUnpriced, Coherent;
    if ds != [] {
      var d := ds[0];
      var b := DimensionStep(p, a, model, d.channel, d.direction, d.amount);
      DimensionStepAdds(p, a, model, d.channel, d.direction, d.amount);
      DimensionsStepAdds(p, b, model, ds[1..]);
      assert forall x :: x in ds <==> x == d || x in ds[1..];
    }
  }

  /** Some reported dimension has no rate. */
  predicate TokensUnpriced(p: Pricing, model: string, t: ImageTokens) { AnyUnpriced(p, model, Dimensions(t)) }

  predicate CountsUnpriced(p: Pricing, row: ImageRow) {
    !CostImages(p, row.key.model, row.tally.inputCount, row.tally.outputCount, row.key.size).1
  }

  lemma PerImageStepAdds(p: Pricing, a: Acc, row: ImageRow)
    ensures var b := PerImageStep(p, a, row);
      && Adds(a, b, ImagesAmount(p, row.key.model, row.key.size, row.tally.inputCount, row.tally.outputCount),
              Only(CountsUnpriced(p, row), row.key.model))
      && SameText(a, b)
  {
    hide LookupMultimodal, NormalizeImageSize;
  }

  /** An image row that, whatever else is in its cell, has a charge without a price. */
  predicate ImageUnpriced(p: Pricing, row: ImageRow) {
    var model := row.key.model;
    var byToken := HasImageTokenPricing(p, model);
    var byImage := HasPerImagePricing(p, model);
    && HasMultimodal(p, model)
    && ((byToken && TokensUnpriced(p, model, row.tally.tokens)) || (byImage && CountsUnpriced(p, row))
        || (!byToken && !byImage && ImageBillable(row.tally)))
  }

  /** An image row left to the text price of its model. */
  predicate FallsBack(p: Pricing, row: ImageRow) { !HasMultimodal(p, row.key.model) && ImageBillable(row.tally) }

  lemma ByTokenStepAdds(p: Pricing, a: Acc, row: ImageRow)
    ensures var b := ByTokenStep(p, a, row);
      && Adds(a, b, TokensAmount(p, row.key.model, row.tally.tokens),
              Only(TokensUnpriced(p, row.key.model, row.tally.tokens), row.key.model))
      && SameText(a, b)
  {
    hide DimensionsStep, AnyUnpriced, At, Dimensions;
    DimensionsStepAdds(p, a, row.key.model, Dimensions(row.tally.tokens));
  }

  lemma MultimodalStepAdds(p: Pricing, a: Acc, row: ImageRow)
    requires HasMultimodal(p, row.key.model)
    ensures var b := MultimodalStep(p, a, row);
      && Adds(a, b, ImageRowCost(p)(row), Only(ImageUnpriced(p, row), row.key.model))
      && SameText(a, b)
  {
    hide CostImages, PerImageStep, ByTokenStep, TokensAmount, ImagesAmount, HasMultimodal, HasImageTokenPricing,
      HasPerImagePricing, ImageBillable, TokensUnpriced, CountsUnpriced, Coherent, Unpriced;
    var model := row.key.model;
    ByTokenStepAdds(p, a, row);
    var b := if HasImageTokenPricing(p, model) then ByTokenStep(p, a, row) else a;
    PerImageStepAdds(p, b, row);
    UnpricedAdds(a, model);
  }

  lemma ImageStepAdds(p: Pricing, a: Acc, row: ImageRow)
    ensures var b := ImageStep(p, a, row);
      var model := row.key.model;
      && Adds(a, b, ImageRowCost(p)(row), Only(ImageUnpriced(p, row) || (FallsBack(p, row) && model !in a.textPriced), model))
      && SameText(a, b)
  {
    hide MultimodalStep, HasMultimodal, WithReason, ImageBillable, TokensAmount, ImagesAmount, TokensUnpriced,
      CountsUnpriced, HasImageTokenPricing, HasPerImagePricing;
    var a0 := WithReason(a, row.tally.missingOutput > 0, ImageCountMissing);
    ReasonAdds(a, row.tally.missingOutput > 0, ImageCountMissing);
    if HasMultimodal(p, row.key.model) { MultimodalStepAdds(p, a0, row); }
  }

  lemma {:induction false} TextFoldAmount(p: Pricing, rows: seq<TextRow>)
    ensures TextFold(p, rows).amount == Sum(rows, TextRowCost(p))
  {
    hide TextStep, TextRowCost, Coherent, Only, TextUnpriced, TextPriced;
    if rows == [] {
    } else {
      var last := |rows| - 1;
      TextFoldAmount(p, rows[..last]);
      TextStepAdds(p, TextFold(p, rows[..last]), rows[last]);
      SumAppend(rows[..last], [rows[last]], TextRowCost(p));
      assert rows[..last] + [rows[last]] == rows;
    }
  }

  lemma {:induction false} FoldAmount(p: Pricing, texts: seq<TextRow>, images: seq<ImageRow>)
    ensures Fold(p, texts, images).amount == Sum(texts, TextRowCost(p)) + Sum(images, ImageRowCost(p))
  {
    hide ImageStep, ImageRowCost, TextRowCost, Coherent, Only, ImageUnpriced, FallsBack;
    if images == [] {
      TextFoldAmount(p, texts);
    } else {
      var last := |images| - 1;
      FoldAmount(p, texts, images[..last]);
      ImageStepAdds(p, Fold(p, texts, images[..last]), images[last]);
      SumAppend(images[..last], [images[last]], ImageRowCost(p));
      assert images[..last] + [images[last]] == images;
    }
  }

  lemma {:induction false} FoldCounts(p: Pricing, texts: seq<TextRow>, images: seq<ImageRow>, c: Confidence)
    ensures Get(Fold(p, texts, images).counts, c) == Total(texts, RowCount(c))
    decreases |texts| + |images|
  {
    hide ImageStep, TextStep, TextRowCost, ImageRowCost, Coherent, Only, ImageUnpriced, FallsBack, TextUnpriced, TextPriced;
    if images != [] {
      var last := |images| - 1;
      FoldCounts(p, texts, images[..last], c);
      ImageStepAdds(p, Fold(p, texts, images[..last]), images[last]);
    } else if texts != [] {
      var last := |texts| - 1;
      FoldCounts(p, texts[..last], [], c);
      assert Fold(p, texts[..last], []) == TextFold(p, texts[..last]);
      TextStepAdds(p, TextFold(p, texts[..last]), texts[last]);
      TotalAppend(texts[..last], [texts[last]], RowCount(c));
      assert texts[..last] + [texts[last]] == texts;
    }
  }

  /** The amounts of the cells. */
  function CellAmount(p: Pricing, g: Grouping, texts: seq<TextRow>, images: seq<ImageRow>): CostGroup -> real {
    (group: CostGroup) => Cell(p, g, texts, images, group).amount
  }

  function CellCount(p: Pricing, g: Grouping, texts: seq<TextRow>, images: seq<ImageRow>, c: Confidence)
    : CostGroup -> int
  {
    (group: CostGroup) => Get(Cell(p, g, texts, images, group).counts, c)
  }

  lemma {:induction false} CellsByParts(p: Pricing, g: Grouping, texts: seq<TextRow>, images: seq<ImageRow>,
                                       groups: seq<CostGroup>, c: Confidence)
    ensures Sum(groups, CellAmount(p, g, texts, images))
         == SumOfParts(texts, TextGroup(g), groups, TextRowCost(p)) + SumOfParts(images, ImageGroup(g), groups, ImageRowCost(p))
    ensures Total(groups, CellCount(p, g, texts, images, c)) == TotalOfParts(texts, TextGroup(g), groups, RowCount(c))
  {
    hide Fold, Part, TextRowCost, ImageRowCost, RowCount;
    if groups != [] {
      FoldAmount(p, Part(texts, TextGroup(g), groups[0]), Part(images, ImageGroup(g), groups[0]));
      FoldCounts(p, Part(texts, TextGroup(g), groups[0]), Part(images, ImageGroup(g), groups[0]), c);
      CellsByParts(p, g, texts, images, groups[1..], c);
    }
  }

  /** Whatever the grouping, the cells add up to the ungrouped amount and to each of the ungrouped counts. */
  lemma RegroupingConserves(p: Pricing, g: Grouping, texts: seq<TextRow>, images: seq<ImageRow>,
                            groups: seq<CostGroup>, c: Confidence)
    requires Lists(groups, texts, TextGroup(g)) && Lists(groups, images, ImageGroup(g))
    ensures Sum(groups, CellAmount(p, g, texts, images)) == Fold(p, texts, images).amount
    ensures Total(groups, CellCount(p, g, texts, images, c)) == Get(Fold(p, texts, images).counts, c)
  {
    CellsByParts(p, g, texts, images, groups, c);
    SumByParts(texts, TextGroup(g), groups, TextRowCost(p), RowCount(c));
    SumByParts(images, ImageGroup(g), groups, ImageRowCost(p), (row: ImageRow) => 0);
    FoldAmount(p, texts, images);
    FoldCounts(p, texts, images, c);
  }

  // ---------- unpriced models ----------

  lemma {:induction false} TextFoldPriced(p: Pricing, rows: seq<TextRow>)
    ensures forall m :: m in TextFold(p, rows).textPriced <==> exists row :: row in rows && TextPriced(p, row) && row.key.model == m
    ensures forall m :: m in TextFold(p, rows).unpriced <==> exists row :: row in rows && TextUnpriced(p, row) && row.key.model == m
    ensures Coherent(TextFold(p, rows))
  {
    hide TextStep, TextRowCost, TextUnpriced, TextPriced;
    if rows == [] {
    } else {
      var last := |rows| - 1;
      TextFoldPriced(p, rows[..last]);
      TextStepAdds(p, TextFold(p, rows[..last]), rows[last]);
      assert forall row :: row in rows <==> row in rows[..last] || row == rows[last];
    }
  }

  /** A model is unpriced in a cell for a text row, for an image row, or for images left to a text price it lacks. */
  predicate UnpricedIn(p: Pricing, texts: seq<TextRow>, images: seq<ImageRow>, model: string) {
    || (exists row :: row in texts && TextUnpriced(p, row) && row.key.model == model)
    || (exists row :: row in images && ImageUnpriced(p, row) && row.key.model == model)
    || ((exists row :: row in images && FallsBack(p, row) && row.key.model == model)
        && forall row | row in texts && row.key.model == model :: !TextPriced(p, row))
  }

  lemma {:induction false} FoldTextPriced(p: Pricing, texts: seq<TextRow>, images: seq<ImageRow>)
    ensures Fold(p, texts, images).textPriced == TextFold(p, texts).textPriced
  {
    hide ImageStep, ImageRowCost, Coherent, Only, ImageUnpriced, FallsBack;
    if images != [] {
      var last := |images| - 1;
      FoldTextPriced(p, texts, images[..last]);
      ImageStepAdds(p, Fold(p, texts, images[..last]), images[last]);
    }
  }

  predicate UnpricedBy(p: Pricing, texts: seq<TextRow>, row: ImageRow, m: string) {
    row.key.model == m && (ImageUnpriced(p, row) || (FallsBack(p, row) && m !in TextFold(p, texts).textPriced))
  }

  /** One more image row adds at most its own model. */
  lemma UnpricedNext(p: Pricing, texts: seq<TextRow>, images: seq<ImageRow>, row: ImageRow, m: string)
    ensures UnpricedIn(p, texts, images + [row], m) <==> UnpricedIn(p, texts, images, m) || UnpricedBy(p, texts, row, m)
  {
    hide ImageUnpriced, FallsBack, TextPriced, TextUnpriced, TextFold;
    TextFoldPriced(p, texts);
    assert forall r :: r in images + [row] <==> r in images || r == row;
  }

  /** Exactly which models a cell reports as unpriced, whatever the order of its rows. */
  lemma {:induction false} UnpricedExactly(p: Pricing, texts: seq<TextRow>, images: seq<ImageRow>)
    ensures forall m :: m in Fold(p, texts, images).unpriced <==> UnpricedIn(p, texts, images, m)
    ensures Coherent(Fold(p, texts, images))
    decreases images
  {
    hide ImageStep, ImageRowCost, ImageUnpriced, FallsBack, TextPriced, TextUnpriced, UnpricedIn, TextFold;
    if images == [] {
      NoImages(p, texts);
    } else {
      var rest, row := images[..|images| - 1], images[|images| - 1];
      UnpricedExactly(p, texts, rest);
      FoldTextPriced(p, texts, rest);
      ImageStepAdds(p, Fold(p, texts, rest), row);
      assert rest + [row] == images;
      forall m { UnpricedNext(p, texts, rest, row, m); }
    }
  }

  lemma NoImages(p: Pricing, texts: seq<TextRow>)
    ensures forall m :: m in Fold(p, texts, []).unpriced <==> UnpricedIn(p, texts, [], m)
    ensures Coherent(Fold(p, texts, []))
  {
    hide TextPriced, TextUnpriced;
    TextFoldPriced(p, texts);
  }

  /** A model unpriced in the ungrouped report is unpriced in some cell of every grouping. */
  lemma UnpricedSurvivesGrouping(p: Pricing, g: Grouping, texts: seq<TextRow>, images: seq<ImageRow>, model: string)
    returns (group: CostGroup)
    requires model in Fold(p, texts, images).unpriced
    ensures model in Cell(p, g, texts, images, group).unpriced
    ensures (exists row :: row in texts && TextGroup(g)(row) == group) || (exists row :: row in images && ImageGroup(g)(row) == group)
  {
    hide Fold, TextUnpriced, ImageUnpriced, FallsBack, TextPriced, TextGroup, ImageGroup, Part;
    UnpricedExactly(p, texts, images);
    if row :| row in texts && TextUnpriced(p, row) && row.key.model == model {
      group := TextGroup(g)(row);
    } else if row :| row in images && ImageUnpriced(p, row) && row.key.model == model {
      group := ImageGroup(g)(row);
    } else {
      var row :| row in images && FallsBack(p, row) && row.key.model == model;
      group := ImageGroup(g)(row);
    }
    PartMembers(texts, TextGroup(g), group);
    PartMembers(images, ImageGroup(g), group);
    UnpricedExactly(p, Part(texts, TextGroup(g), group), Part(images, ImageGroup(g), group));
  }

  /** Images left to a text price, in a cell without a priced text row of their model. */
  ghost predicate StrandedRow(p: Pricing, g: Grouping, texts: seq<TextRow>, row: ImageRow) {
    FallsBack(p, row)
    && forall t | t in texts && TextGroup(g)(t) == ImageGroup(g)(row) && t.key.model == row.key.model :: !TextPriced(p, t)
  }

  ghost predicate Stranded(p: Pricing, g: Grouping, texts: seq<TextRow>, images: seq<ImageRow>, model: string) {
    exists row :: row in images && row.key.model == model && StrandedRow(p, g, texts, row)
  }

  ghost predicate UnpricedInSomeCell(p: Pricing, g: Grouping, texts: seq<TextRow>, images: seq<ImageRow>, model: string) {
    exists group :: model in Cell(p, g, texts, images, group).unpriced
  }

  lemma UnpricedCellIsStranded(p: Pricing, g: Grouping, texts: seq<TextRow>, images: seq<ImageRow>, group: CostGroup, model: string)
    requires model in Cell(p, g, texts, images, group).unpriced
    ensures model in Fold(p, texts, images).unpriced || Stranded(p, g, texts, images, model)
  {
    hide Fold, TextUnpriced, ImageUnpriced, FallsBack, TextPriced, TextGroup, ImageGroup, Part;
    PartMembers(texts, TextGroup(g), group);
    PartMembers(images, ImageGroup(g), group);
    UnpricedExactly(p, Part(texts, TextGroup(g), group), Part(images, ImageGroup(g), group));
    UnpricedExactly(p, texts, images);
    if model !in Fold(p, texts, images).unpriced {
      var row :| row in Part(images, ImageGroup(g), group) && FallsBack(p, row) && row.key.model == model;
      assert StrandedRow(p, g, texts, row);
    }
  }

  lemma StrandedIsUnpriced(p: Pricing, g: Grouping, texts: seq<TextRow>, images: seq<ImageRow>, row: ImageRow)
    requires row in images && StrandedRow(p, g, texts, row)
    ensures row.key.model in Cell(p, g, texts, images, ImageGroup(g)(row)).unpriced
  {
    hide Fold, TextUnpriced, ImageUnpriced, FallsBack, TextPriced, TextGroup, ImageGroup, Part;
    var group := ImageGroup(g)(row);
    PartMembers(texts, TextGroup(g), group);
    PartMembers(images, ImageGroup(g), group);
    UnpricedExactly(p, Part(texts, TextGroup(g), group), Part(images, ImageGroup(g), group));
  }

  /** A model is unpriced in some cell exactly when it is in the ungrouped report or its images are stranded in one. */
  lemma UnpricedInCellsExactly(p: Pricing, g: Grouping, texts: seq<TextRow>, images: seq<ImageRow>, model: string)
    ensures UnpricedInSomeCell(p, g, texts, images, model)
       <==> model in Fold(p, texts, images).unpriced || Stranded(p, g, texts, images, model)
  {
    hide Cell, Fold, StrandedRow;
    if group :| model in Cell(p, g, texts, images, group).unpriced {
      UnpricedCellIsStranded(p, g, texts, images, group, model);
    } else if model in Fold(p, texts, images).unpriced {
      var group := UnpricedSurvivesGrouping(p, g, texts, images, model);
    } else if row :| row in images && row.key.model == model && StrandedRow(p, g, texts, row) {
      StrandedIsUnpriced(p, g, texts, images, row);
    }
  }

  // ---------- unpriced models of stored requests ----------

  /** Where a report shows operations its query grouped by them, and every request has at most one image row. */
  predicate OperationsAgree(g: Grouping, f: Filter, rs: seq<Request>) {
    g.byOperation ==> f.byOperation && forall r | r in rs :: |r.images| <= 1
  }

  /** Whether a text row not billed by images has a price depends on its model only. */
  lemma PricedByModel(p: Pricing, row: TextRow)
    requires !HasMultimodal(p, row.key.model)
    ensures TextPriced(p, row) <==> Lookup(p, row.key.model).Some?
  {
    hide Lookup, ComputeCost, ResolveTextTier, HasMultimodal;
  }

  lemma {:induction false} TextRowMember(rs: seq<Request>, f: Filter, keys: seq<TextKey>, k: TextKey)
    requires k in keys
    ensures TextRowOf(rs, f, k) in TextRows(rs, f, keys)
  {
    hide TextRowOf;
    if keys[0] != k { TextRowMember(rs, f, keys[1..], k); }
  }

  lemma {:induction false} ImageRowFrom(es: seq<Entry>, f: Filter, keys: seq<ImageKey>, row: ImageRow) returns (k: ImageKey)
    requires row in ImageRows(es, f, keys)
    ensures k in keys && row == ImageRowOf(es, f, k)
  {
    hide ImageRowOf;
    if row == ImageRowOf(es, f, keys[0]) { return keys[0]; }
    k := ImageRowFrom(es, f, keys[1..], row);
  }

  lemma {:induction false} EntryFrom(rs: seq<Request>, e: Entry)
    requires e in Entries(rs)
    ensures e.r in rs && e.image in e.r.images
  {
    if e in EntriesOf(rs[0], rs[0].images) {
      EntryOfRequest(rs[0], rs[0].images, e);
    } else {
      EntryFrom(rs[1..], e);
    }
  }

  lemma {:induction false} EntryOfRequest(r: Request, images: seq<Image>, e: Entry)
    requires e in EntriesOf(r, images)
    ensures e.r == r && e.image in images
  {
    if e != Entry(r, images[0]) { EntryOfRequest(r, images[1..], e); }
  }

  /** A billable image row has an entry of its key. */
  lemma BillableHasEntry(es: seq<Entry>, f: Filter, k: ImageKey) returns (e: Entry)
    requires ImageBillable(ImageRowOf(es, f, k).tally)
    ensures e in es && ImageKeyOf(f)(e) == k
  {
    hide ImageKeyOf;
    PartMembers(es, ImageKeyOf(f), k);
    var part := Part(es, ImageKeyOf(f), k);
    assert part != [] by { assert !ImageBillable(NO_IMAGES); }
    e := part[0];
    assert e in part;
  }

  /** The text row of a request shares the cell of its image rows. */
  lemma SharedCell(g: Grouping, f: Filter, rs: seq<Request>, e: Entry)
    requires OperationsAgree(g, f, rs) && e in Entries(rs)
    ensures forall t: TextRow, i: ImageRow | t.key == TextKeyOf(f)(e.r) && i.key == ImageKeyOf(f)(e) ::
              TextGroup(g)(t) == ImageGroup(g)(i) && t.key.model == i.key.model
  {
    EntryFrom(rs, e);
  }

  lemma NothingStranded(p: Pricing, g: Grouping, f: Filter, rs: seq<Request>, textKeys: seq<TextKey>,
                        imageKeys: seq<ImageKey>, row: ImageRow)
    requires OperationsAgree(g, f, rs) && Lists(textKeys, rs, TextKeyOf(f))
    requires row in ImageRows(Entries(rs), f, imageKeys) && StrandedRow(p, g, TextRows(rs, f, textKeys), row)
    ensures Lookup(p, row.key.model).None?
  {
    hide Entries, ImageRows, TextRows, TextKeyOf, ImageKeyOf, TextGroup, ImageGroup, HasMultimodal, OperationsAgree,
      TextPriced, ImageBillable, ImageTotal, TextTotal, Part, Lookup;
    var k := ImageRowFrom(Entries(rs), f, imageKeys, row);
    var e := BillableHasEntry(Entries(rs), f, k);
    EntryFrom(rs, e);
    SharedCell(g, f, rs, e);
    var t := TextRowOf(rs, f, TextKeyOf(f)(e.r));
    TextRowMember(rs, f, textKeys, TextKeyOf(f)(e.r));
    assert TextGroup(g)(t) == ImageGroup(g)(row) && t.key.model == row.key.model;
    PricedByModel(p, t);
  }

  /**
   For stored requests the grouping does not matter: a model is unpriced in some cell of a report exactly when it is
   in the ungrouped report over the same buckets.
   */
  lemma GroupingKeepsUnpriced(p: Pricing, g: Grouping, f: Filter, rs: seq<Request>, textKeys: seq<TextKey>,
                              imageKeys: seq<ImageKey>, model: string)
    requires OperationsAgree(g, f, rs) && Lists(textKeys, rs, TextKeyOf(f))
    ensures var texts := TextRows(rs, f, textKeys);
      var images := ImageRows(Entries(rs), f, imageKeys);
      UnpricedInSomeCell(p, g, texts, images, model) <==> model in Fold(p, texts, images).unpriced
  {
    hide Fold, TextRows, ImageRows, Entries, OperationsAgree, TextKeyOf, Cell, Lookup, TextPriced, HasMultimodal, UnpricedInSomeCell;
    var texts := TextRows(rs, f, textKeys);
    var images := ImageRows(Entries(rs), f, imageKeys);
    UnpricedInCellsExactly(p, g, texts, images, model);
    if row :| row in images && row.key.model == model && StrandedRow(p, g, texts, row) {
      NothingStranded(p, g, f, rs, textKeys, imageKeys, row);
      UnpricedExactly(p, texts, images);
      forall t | t in texts && t.key.model == model ensures !TextPriced(p, t) { PricedByModel(p, t); }
    }
  }

  lemma {:induction false} TextRowFrom(rs: seq<Request>, f: Filter, keys: seq<TextKey>, row: TextRow)
    requires row in TextRows(rs, f, keys)
    ensures row.key in keys && row == TextRowOf(rs, f, row.key)
  {
    hide TextTotal, Part;
    if row != TextRowOf(rs, f, keys[0]) { TextRowFrom(rs, f, keys[1..], row); }
  }

  lemma {:induction false} ImageRowMember(es: seq<Entry>, f: Filter, keys: seq<ImageKey>, k: ImageKey)
    requires k in keys
    ensures ImageRowOf(es, f, k) in ImageRows(es, f, keys)
  {
    hide ImageRowOf;
    if keys[0] != k { ImageRowMember(es, f, keys[1..], k); }
  }

  /** The buckets of the images of a request that has two, of different operations. */
  lemma TwoImages(r: Request, f: Filter, a: Image, b: Image)
    requires r.images == [a, b] && a.operation != b.operation && a.outputCount > 0 && b.outputCount > 0
    ensures Entries([r]) == [Entry(r, a), Entry(r, b)]
    ensures ImageBillable(ImageRowOf(Entries([r]), f, ImageKeyOf(f)(Entry(r, b))).tally)
  {
    hide Classify, CountOf, BilledTokens, AnyToken;
    var ea, eb := Entry(r, a), Entry(r, b);
    assert [a, b][1..] == [b];
    assert EntriesOf(r, [b]) == [eb];
    assert EntriesOf(r, [a, b]) == [ea] + [eb];
    assert [r][1..] == [] && [ea, eb] + [] == [ea, eb];
    hide Entries, EntriesOf;
    PartOfTwo(ea, eb, ImageKeyOf(f), ImageKeyOf(f)(eb));
    assert [] + [eb] == [eb] && [eb][1..] == [];
    hide Part;
    assert ImageTotal([eb]) == AddImages(ImageTallyOf(eb), NO_IMAGES);
  }

  /**
   A request with two image rows would be different: the second is alone in the cell of its operation and loses the
   text price of its model there. The writer stores at most one.
   */
  lemma GroupingCanUnprice()
    returns (p: Pricing, g: Grouping, f: Filter, r: Request, textKeys: seq<TextKey>, imageKeys: seq<ImageKey>, group: CostGroup)
    ensures |r.images| == 2 && g.byOperation && f.byOperation
    ensures Lists(textKeys, [r], TextKeyOf(f)) && Lists(imageKeys, Entries([r]), ImageKeyOf(f))
    ensures Fold(p, TextRows([r], f, textKeys), ImageRows(Entries([r]), f, imageKeys)).unpriced == {}
    ensures "m" in Cell(p, g, TextRows([r], f, textKeys), ImageRows(Entries([r]), f, imageKeys), group).unpriced
  {
    p := Pricing(map["m" := ModelPrice(1.0, 1.0, 1.0, 0.0, 0.0, None)], map[], map[], map[]);
    g, f := Grouping(false, false, false, true), Filter(false, false, true);
    var edit, generate := Image("edit", "", 0, 1, 0), Image("generate", "", 0, 1, 0);
    assert edit.operation[0] != generate.operation[0];
    r := Request("", "", "m", 200, 1, 0, 0, 0, 0, [edit, generate], NO_TOKENS, Capture(false, "", "", "captured"));
    TwoImages(r, f, edit, generate);
    var key, key1, key2 := TextKeyOf(f)(r), ImageKeyOf(f)(Entry(r, edit)), ImageKeyOf(f)(Entry(r, generate));
    textKeys, imageKeys := [key], [key1, key2];
    assert key in textKeys && key1 in imageKeys && key2 in imageKeys;
    assert !HasMultimodal(p, "m") && Lookup(p, "m").Some?;
    hide Entries, HasMultimodal, Lookup, ImageBillable, ImageTotal, TextTotal, Part;
    group := StrandedGroup(p, g, f, r, textKeys, imageKeys, key2);
    AllPriced(p, f, [r], textKeys, imageKeys, "m");
  }

  lemma StrandedGroup(p: Pricing, g: Grouping, f: Filter, r: Request, textKeys: seq<TextKey>, imageKeys: seq<ImageKey>,
                      k: ImageKey) returns (group: CostGroup)
    requires g.byOperation && !HasMultimodal(p, k.model) && k in imageKeys
    requires ImageBillable(ImageRowOf(Entries([r]), f, k).tally)
    requires forall t | t in textKeys :: t.operation != k.operation
    ensures k.model in Cell(p, g, TextRows([r], f, textKeys), ImageRows(Entries([r]), f, imageKeys), group).unpriced
  {
    hide Entries, HasMultimodal, ImageBillable, ImageTotal, TextTotal, Part, TextRows, ImageRows, TextPriced, Cell;
    var texts, row := TextRows([r], f, textKeys), ImageRowOf(Entries([r]), f, k);
    ImageRowMember(Entries([r]), f, imageKeys, k);
    forall t | t in texts ensures t.key in textKeys { TextRowFrom([r], f, textKeys, t); }
    assert StrandedRow(p, g, texts, row);
    StrandedIsUnpriced(p, g, texts, ImageRows(Entries([r]), f, imageKeys), row);
    group := ImageGroup(g)(row);
  }

  /** A report over one model with a text price and no image prices has nothing unpriced. */
  lemma AllPriced(p: Pricing, f: Filter, rs: seq<Request>, textKeys: seq<TextKey>, imageKeys: seq<ImageKey>, model: string)
    requires !HasMultimodal(p, model) && Lookup(p, model).Some? && textKeys != []
    requires (forall t | t in textKeys :: t.model == model) && forall k | k in imageKeys :: k.model == model
    ensures Fold(p, TextRows(rs, f, textKeys), ImageRows(Entries(rs), f, imageKeys)).unpriced == {}
  {
    hide Entries, HasMultimodal, Lookup, ImageTotal, TextTotal, Part, TextRows, ImageRows, TextPriced, Fold, TextRowOf, ImageRowOf;
    var texts, images := TextRows(rs, f, textKeys), ImageRows(Entries(rs), f, imageKeys);
    forall t | t in texts ensures t.key.model == model && TextPriced(p, t) {
      TextRowFrom(rs, f, textKeys, t);
      PricedByModel(p, t);
    }
    forall row | row in images ensures row.key.model == model {
      var k := ImageRowFrom(Entries(rs), f, imageKeys, row);
      assert ImageRowOf(Entries(rs), f, k).key == k by { KeyOfRow(Entries(rs), f, k); }
    }
    TextRowMember(rs, f, textKeys, textKeys[0]);
    NoneUnpriced(p, texts, images, model);
  }

  lemma KeyOfRow(es: seq<Entry>, f: Filter, k: ImageKey)
    ensures ImageRowOf(es, f, k).key == k
  {}

  lemma NoneUnpriced(p: Pricing, texts: seq<TextRow>, images: seq<ImageRow>, model: string)
    requires texts != [] && !HasMultimodal(p, model)
    requires forall t | t in texts :: t.key.model == model && TextPriced(p, t)
    requires forall row | row in images :: row.key.model == model
    ensures Fold(p, texts, images).unpriced == {}
  {
    hide HasMultimodal, Fold, FallsBack, RowText, TextSkipped;
    UnpricedExactly(p, texts, images);
    assert texts[0] in texts;
    assert forall m :: m !in Fold(p, texts, images).unpriced;
  }

  // ---------- from requests to reports ----------

  /**
   * The cells of any report over the requests add up to at most the sum of the requests priced one by one, and
   * to exactly that when no text bucket mixes requests with more reasoning than output and with less.
   */
  lemma ReportAgainstRequests(p: Pricing, g: Grouping, rs: seq<Request>, f: Filter,
                              textKeys: seq<TextKey>, imageKeys: seq<ImageKey>, groups: seq<CostGroup>)
    requires PricesOk(p)
    requires Lists(textKeys, rs, TextKeyOf(f)) && Lists(imageKeys, Entries(rs), ImageKeyOf(f))
    requires Lists(groups, TextRows(rs, f, textKeys), TextGroup(g))
    requires Lists(groups, ImageRows(Entries(rs), f, imageKeys), ImageGroup(g))
    ensures var cells := Sum(groups, CellAmount(p, g, TextRows(rs, f, textKeys), ImageRows(Entries(rs), f, imageKeys)));
      && cells <= Sum(rs, RequestCost(p))
      && (cells == Sum(rs, RequestCost(p)) <==> forall k | k in textKeys :: !LosesIn(p, rs, f, k))
  {
    hide Fold, LosesIn, PricesOk, CellAmount;
    var texts := TextRows(rs, f, textKeys);
    var images := ImageRows(Entries(rs), f, imageKeys);
    RegroupingConserves(p, g, texts, images, groups, Observed);
    FoldAmount(p, texts, images);
    TextBucketsExactly(p, rs, f, textKeys);
    ImageBucketsExactly(p, rs, f, imageKeys);
    OneOrTheOther(p, rs);
  }

  /** When no request reports more reasoning than output, every report adds up to the requests priced one by one. */
  lemma ReportIsTheRequests(p: Pricing, g: Grouping, rs: seq<Request>, f: Filter,
                            textKeys: seq<TextKey>, imageKeys: seq<ImageKey>, groups: seq<CostGroup>)
    requires PricesOk(p)
    requires forall r | r in rs :: r.reasoning <= r.output
    requires Lists(textKeys, rs, TextKeyOf(f)) && Lists(imageKeys, Entries(rs), ImageKeyOf(f))
    requires Lists(groups, TextRows(rs, f, textKeys), TextGroup(g))
    requires Lists(groups, ImageRows(Entries(rs), f, imageKeys), ImageGroup(g))
    ensures Sum(groups, CellAmount(p, g, TextRows(rs, f, textKeys), ImageRows(Entries(rs), f, imageKeys)))
         == Sum(rs, RequestCost(p))
  {
    hide CellAmount, PricesOk, Loses;
    ReportAgainstRequests(p, g, rs, f, textKeys, imageKeys, groups);
    forall k | k in textKeys ensures !LosesIn(p, rs, f, k) {
      WithinOutputNeverLoses(p, rs, f, k);
    }
  }

  /** Each of the six counts, over the cells. */
  function ReportCounts(p: Pricing, g: Grouping, texts: seq<TextRow>, images: seq<ImageRow>, groups: seq<CostGroup>): Counts {
    Counts(Total(groups, CellCount(p, g, texts, images, Observed)), Total(groups, CellCount(p, g, texts, images, SideChannel)),
           Total(groups, CellCount(p, g, texts, images, RequestOnly)), Total(groups, CellCount(p, g, texts, images, MissingUsage)),
           Total(groups, CellCount(p, g, texts, images, Unsupported)), Total(groups, CellCount(p, g, texts, images, Conflict)))
  }

  /** Each count of the cells adds up to the requests of its class. */
  lemma CellsCountClass(p: Pricing, g: Grouping, rs: seq<Request>, f: Filter, textKeys: seq<TextKey>,
                        images: seq<ImageRow>, groups: seq<CostGroup>, c: Confidence)
    requires Lists(textKeys, rs, TextKeyOf(f))
    requires Lists(groups, TextRows(rs, f, textKeys), TextGroup(g)) && Lists(groups, images, ImageGroup(g))
    ensures Total(groups, CellCount(p, g, TextRows(rs, f, textKeys), images, c)) == Total(rs, RequestCount(c))
  {
    hide Fold, CellCount, TextRows, Lists, Total;
    RegroupingConserves(p, g, TextRows(rs, f, textKeys), images, groups, c);
    FoldCounts(p, TextRows(rs, f, textKeys), images, c);
    CountsAreRequests(rs, f, textKeys, c);
  }

  /** The six counts of the cells add up to the number of requests. */
  lemma ReportCountsRequests(p: Pricing, g: Grouping, rs: seq<Request>, f: Filter,
                             textKeys: seq<TextKey>, images: seq<ImageRow>, groups: seq<CostGroup>)
    requires Lists(textKeys, rs, TextKeyOf(f))
    requires Lists(groups, TextRows(rs, f, textKeys), TextGroup(g)) && Lists(groups, images, ImageGroup(g))
    ensures AllSix(ReportCounts(p, g, TextRows(rs, f, textKeys), images, groups)) == |rs|
  {
    hide Fold, CellCount, TextRows, Lists, Total;
    var texts := TextRows(rs, f, textKeys);
    CellsCountClass(p, g, rs, f, textKeys, images, groups, Observed);
    CellsCountClass(p, g, rs, f, textKeys, images, groups, SideChannel);
    CellsCountClass(p, g, rs, f, textKeys, images, groups, RequestOnly);
    CellsCountClass(p, g, rs, f, textKeys, images, groups, MissingUsage);
    CellsCountClass(p, g, rs, f, textKeys, images, groups, Unsupported);
    CellsCountClass(p, g, rs, f, textKeys, images, groups, Conflict);
    SixClassesCover(rs);
  }

  // ---------- completing a cell ----------

  function Short(expected: map<string, int>, actual: map<string, int>, model: string): int {
    Max(At(expected, model) - At(actual, model), 0)
  }

  /** The usage missing over some models, in any order. */
  ghost function Shortfall(models: set<string>, expected: map<string, int>, actual: map<string, int>): int {
    if models == {} then 0
    else
      var m :| m in models;
      Short(expected, actual, m) + Shortfall(models - {m}, expected, actual)
  }

  lemma {:induction false} ShortfallWithout(models: set<string>, expected: map<string, int>, actual: map<string, int>,
                                           model: string)
    requires model in models
    ensures Shortfall(models, expected, actual)
         == Short(expected, actual, model) + Shortfall(models - {model}, expected, actual)
  {
    var m :| m in models && Shortfall(models, expected, actual)
                         == Short(expected, actual, m) + Shortfall(models - {m}, expected, actual);
    if m != model {
      ShortfallWithout(models - {m}, expected, actual, model);
      ShortfallWithout(models - {model}, expected, actual, m);
      assert models - {m} - {model} == models - {model} - {m};
    }
  }

  /** Images that were expected to report tokens and did not are missing usage. */
  ghost function Finalised(a: Acc): Acc {
    var short := Shortfall(a.fallback, a.expectedText, a.text) + Shortfall(a.expectedTokens.Keys, a.expectedTokens, a.tokens);
    WithReason(a.(missing := a.missing + short), short > 0, MissingUsageReason)
  }

  function Ordered(reasons: set<Reason>, order: seq<Reason>): seq<Reason> {
    if order == [] then [] else (if order[0] in reasons then [order[0]] else []) + Ordered(reasons, order[1..])
  }

  function ResultOf(a: Acc): CostResult {
    var reasons := Ordered(a.reasons, REASON_ORDER);
    CostResult(a.amount, a.priceKnown, if |reasons| > 0 then Partial else Complete, |a.unpriced|, reasons, a.counts, a.missing)
  }

  lemma {:induction false} OrderedMembers(reasons: set<Reason>, order: seq<Reason>)
    requires Distinct(order)
    ensures forall r :: r in Ordered(reasons, order) <==> r in reasons && r in order
    ensures Distinct(Ordered(reasons, order))
    ensures Ordered(reasons, order) == [] <==> forall r | r in order :: r !in reasons
  {
    if order != [] {
      OrderedMembers(reasons, order[1..]);
      assert forall r :: r in order <==> r == order[0] || r in order[1..];
    }
  }

  lemma EveryReasonListed()
    ensures Distinct(REASON_ORDER) && forall r: Reason :: r in REASON_ORDER
  {
    forall r: Reason ensures r in REASON_ORDER { ReasonListed(r); }
  }

  lemma ReasonListed(r: Reason)
    ensures r in REASON_ORDER
  {
    var i := match r
      case UnpricedModel => 0 case MissingUsageReason => 1 case RequestOnlyReason => 2 case UnsupportedReason => 3
      case UsageConflict => 4 case ImageCountMissing => 5 case ImageSizeDefaulted => 6 case CostQueryFailed => 7;
    assert REASON_ORDER[i] == r;
  }

  /** The fields of a result agree: a cell is complete exactly when it has no reason not to be. */
  lemma ResultMeans(p: Pricing, texts: seq<TextRow>, images: seq<ImageRow>)
    ensures var a := Finalised(Fold(p, texts, images));
      var result := ResultOf(a);
      && (result.costKnown <==> result.unpricedModels == 0)
      && (result.costKnown <==> UnpricedModel !in result.reasons)
      && (result.state == Complete <==> a.reasons == {})
      && (forall r :: r in result.reasons <==> r in a.reasons)
  {
    hide Fold, UnpricedIn, Ordered, Shortfall;
    UnpricedExactly(p, texts, images);
    var a := Finalised(Fold(p, texts, images));
    EveryReasonListed();
    OrderedMembers(a.reasons, REASON_ORDER);
  }
}
