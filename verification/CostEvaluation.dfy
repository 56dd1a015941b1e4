/** The report loop: one accumulator per cell, text rows first, then image rows. */
module CostEvaluation {
  import opened Bytes
  import opened Sums
  import opened Pricing
  import opened CostBuckets
  import opened ImageBuckets
  import opened CostReport

  /** The nine dimensions, one call after the other. */
  function NineSteps(p: Pricing, a: Acc, model: string, t: ImageTokens): Acc {
    var a := DimensionStep(p, a, model, TextTokens, Input, t.inputText);
    var a := DimensionStep(p, a, model, TextTokens, CachedInput, t.cachedText);
    var a := DimensionStep(p, a, model, PictureTokens, Input, t.inputImage);
    var a := DimensionStep(p, a, model, PictureTokens, CachedInput, t.cachedImage);
    var a := DimensionStep(p, a, model, MixedTokens, Input, t.inputMixed);
    var a := DimensionStep(p, a, model, MixedTokens, CachedInput, t.cachedMixed);
    var a := DimensionStep(p, a, model, TextTokens, Output, t.outputText);
    var a := DimensionStep(p, a, model, PictureTokens, Output, t.outputImage);
    DimensionStep(p, a, model, MixedTokens, Output, t.outputMixed)
  }

  lemma FirstDimension(p: Pricing, a: Acc, model: string, d: Dimension, ds: seq<Dimension>)
    ensures DimensionsStep(p, a, model, [d] + ds)
         == DimensionsStep(p, DimensionStep(p, a, model, d.channel, d.direction, d.amount), model, ds)
  {
    assert ([d] + ds)[1..] == ds;
  }

  lemma {:induction false} AppendDimensions(p: Pricing, a: Acc, model: string, ds: seq<Dimension>, es: seq<Dimension>)
    ensures DimensionsStep(p, a, model, ds + es) == DimensionsStep(p, DimensionsStep(p, a, model, ds), model, es)
    decreases ds
  {
    hide DimensionStep;
    if ds == [] {
      assert ds + es == es;
    } else {
      assert (ds + es)[1..] == ds[1..] + es;
      AppendDimensions(p, DimensionStep(p, a, model, ds[0].channel, ds[0].direction, ds[0].amount), model, ds[1..], es);
    }
  }

  lemma ThreeDimensions(p: Pricing, a: Acc, model: string, x: Dimension, y: Dimension, z: Dimension)
    ensures DimensionsStep(p, a, model, [x, y, z])
         == var b := DimensionStep(p, a, model, x.channel, x.direction, x.amount);
            var c := DimensionStep(p, b, model, y.channel, y.direction, y.amount);
            DimensionStep(p, c, model, z.channel, z.direction, z.amount)
  {
    hide DimensionStep;
    FirstDimension(p, a, model, x, [y, z]);
    assert [x] + [y, z] == [x, y, z] && [y] + [z] == [y, z];
    var b := DimensionStep(p, a, model, x.channel, x.direction, x.amount);
    FirstDimension(p, b, model, y, [z]);
    var c := DimensionStep(p, b, model, y.channel, y.direction, y.amount);
    FirstDimension(p, c, model, z, []);
    assert [z] + [] == [z];
  }

  lemma NineStepsInOrder(p: Pricing, a: Acc, model: string, t: ImageTokens)
    ensures NineSteps(p, a, model, t) == DimensionsStep(p, a, model, Dimensions(t))
  {
    hide DimensionStep, DimensionsStep;
    var ds := Dimensions(t);
    assert ds == (ds[..3] + ds[3..6]) + ds[6..];
    assert ds[..3] == [ds[0], ds[1], ds[2]] && ds[3..6] == [ds[3], ds[4], ds[5]] && ds[6..] == [ds[6], ds[7], ds[8]];
    AppendDimensions(p, a, model, ds[..3] + ds[3..6], ds[6..]);
    AppendDimensions(p, a, model, ds[..3], ds[3..6]);
    ThreeDimensions(p, a, model, ds[0], ds[1], ds[2]);
    var b := DimensionsStep(p, a, model, ds[..3]);
    ThreeDimensions(p, b, model, ds[3], ds[4], ds[5]);
    var c := DimensionsStep(p, b, model, ds[3..6]);
    ThreeDimensions(p, c, model, ds[6], ds[7], ds[8]);
  }

  lemma NextReason(reasons: set<Reason>, order: seq<Reason>, i: nat, listed: seq<Reason>)
    requires i < |order|
    ensures var longer := if order[i] in reasons then listed + [order[i]] else listed;
      listed + Ordered(reasons, order[i..]) == longer + Ordered(reasons, order[i + 1..])
  {
    assert order[i..][1..] == order[i + 1..];
    ConcatAssociates(listed, if order[i] in reasons then [order[i]] else [], Ordered(reasons, order[i + 1..]));
    ConcatEmpty(listed);
  }

  lemma NoReasonLeft(reasons: set<Reason>, order: seq<Reason>, listed: seq<Reason>)
    ensures order[0..] == order && listed + Ordered(reasons, order[|order|..]) == listed
  {
    ConcatEmpty(listed);
  }

  // ---------- the accumulators ----------

  class CostAccumulator {
    var amount: real
    var priceKnown: bool
    var textPriced: set<string>
    var expectedText: map<string, int>
    var text: map<string, int>
    var expectedTokens: map<string, int>
    var tokens: map<string, int>
    var fallback: set<string>
    var unpriced: set<string>
    var reasons: set<Reason>
    var counts: Counts
    var missing: int

    ghost function Value(): Acc
      reads this
    {
      Acc(amount, priceKnown, textPriced, expectedText, text, expectedTokens, tokens, fallback, unpriced, reasons, counts,
          missing)
    }

    constructor ()
      ensures Value() == NEW_ACC
    {
      amount, priceKnown, missing, counts := 0.0, true, 0, NO_COUNTS;
      textPriced, fallback, unpriced, reasons := {}, {}, {}, {};
      expectedText, text, expectedTokens, tokens := map[], map[], map[], map[];
    }

    method AddReason(reason: Reason)
      modifies this
      ensures Value() == WithReason(old(Value()), true, reason)
    {
      reasons := reasons + {reason};
    }

    method MarkUnpriced(model: string)
      modifies this
      ensures Value() == Unpriced(old(Value()), model)
    {
      priceKnown := false;
      unpriced := unpriced + {model};
      AddReason(UnpricedModel);
    }

    method AddConfidence(c: Counts)
      modifies this
      ensures Value() == WithCounts(old(Value()), c)
    {
      counts := AddCounts(counts, c);
      missing := missing + c.missing;
      if c.requestOnly > 0 { AddReason(RequestOnlyReason); }
      if c.missing > 0 { AddReason(MissingUsageReason); }
      if c.unsupported > 0 { AddReason(UnsupportedReason); }
      if c.conflict > 0 { AddReason(UsageConflict); }
    }

    method AddImageDimension(p: Pricing, model: string, channel: Channel, direction: Direction, n: int)
      modifies this
      ensures Value() == DimensionStep(p, old(Value()), model, channel, direction, n)
    {
      if n <= 0 { return; }
      match CostDimension(p, model, channel, direction, n) {
        case None => MarkUnpriced(model);
        case Some(cost) => amount := amount + cost;
      }
    }

    /** The body of the loop over text rows. */
    method AddTextRow(p: Pricing, row: TextRow)
      modifies this
      ensures Value() == TextStep(p, old(Value()), row)
    {
      hide WithCounts, CostText, HasMultimodal;
      var model, c := row.key.model, row.tally.counts;
      AddConfidence(c);
      if row.key.imageRequest {
        expectedText := expectedText[model := At(expectedText, model) + c.observed + c.sideChannel];
        text := text[model := At(text, model) + row.tally.used];
      }
      if row.key.imageRequest && HasMultimodal(p, model) { return; }
      match RowText(p, row) {
        case Some(cost) =>
          textPriced := textPriced + {model};
          amount := amount + cost;
        case None =>
          if TextBillable(row.tally) { MarkUnpriced(model); }
      }
    }

    method AddImageTokens(p: Pricing, row: ImageRow)
      modifies this
      ensures Value() == ByTokenStep(p, old(Value()), row)
    {
      hide DimensionStep, DimensionsStep, Dimensions;
      var model, t, c := row.key.model, row.tally.tokens, row.tally.counts;
      NineStepsInOrder(p, Value(), model, t);
      AddImageDimension(p, model, TextTokens, Input, t.inputText);
      AddImageDimension(p, model, TextTokens, CachedInput, t.cachedText);
      AddImageDimension(p, model, PictureTokens, Input, t.inputImage);
      AddImageDimension(p, model, PictureTokens, CachedInput, t.cachedImage);
      AddImageDimension(p, model, MixedTokens, Input, t.inputMixed);
      AddImageDimension(p, model, MixedTokens, CachedInput, t.cachedMixed);
      AddImageDimension(p, model, TextTokens, Output, t.outputText);
      AddImageDimension(p, model, PictureTokens, Output, t.outputImage);
      AddImageDimension(p, model, MixedTokens, Output, t.outputMixed);
      expectedTokens := expectedTokens[model := At(expectedTokens, model) + c.observed + c.sideChannel];
      tokens := tokens[model := At(tokens, model) + row.tally.tokenUsed];
    }

    /** The body of the loop over image rows. */
    method AddImageRow(p: Pricing, row: ImageRow)
      modifies this
      ensures Value() == ImageStep(p, old(Value()), row)
    {
      hide ByTokenStep, HasMultimodal, HasImageTokenPricing, HasPerImagePricing, CostImages;
      var model, t := row.key.model, row.tally;
      if t.missingOutput > 0 { AddReason(ImageCountMissing); }
      if !HasMultimodal(p, model) {
        if ImageBillable(t) && model !in textPriced { MarkUnpriced(model); }
        fallback := fallback + {model};
        return;
      }
      var byToken, byImage := HasImageTokenPricing(p, model), HasPerImagePricing(p, model);
      if byToken { AddImageTokens(p, row); }
      if byImage {
        var (cost, known, defaulted) := CostImages(p, model, t.inputCount, t.outputCount, row.key.size);
        amount := amount + cost;
        if !known && (t.inputCount > 0 || t.outputCount > 0) { MarkUnpriced(model); }
        if defaulted && t.outputCount > 0 { AddReason(ImageSizeDefaulted); }
      }
      if !byToken && !byImage && ImageBillable(t) { MarkUnpriced(model); }
    }

    method AddMissing(expected: int, actual: int)
      modifies this`missing, this`reasons
      ensures missing == old(missing) + Max(expected - actual, 0)
      ensures reasons == old(reasons) + if actual < expected then {MissingUsageReason} else {}
    {
      if actual < expected {
        missing := missing + (expected - actual);
        reasons := reasons + {MissingUsageReason};
      }
    }

    /** The maps are walked in any order. */
    method FinalizeImageCompleteness()
      modifies this`missing, this`reasons
      ensures Value() == Finalised(old(Value()))
    {
      var before := missing;
      var rest := fallback;
      while rest != {}
        invariant missing >= before
        invariant missing + Shortfall(rest, expectedText, text) == before + Shortfall(fallback, expectedText, text)
        invariant reasons == old(reasons) + if missing > before then {MissingUsageReason} else {}
        decreases rest
      {
        var model :| model in rest;
        ShortfallWithout(rest, expectedText, text, model);
        rest := rest - {model};
        AddMissing(At(expectedText, model), At(text, model));
      }
      var between := missing;
      rest := expectedTokens.Keys;
      while rest != {}
        invariant rest <= expectedTokens.Keys && missing >= between
        invariant missing + Shortfall(rest, expectedTokens, tokens) == between + Shortfall(expectedTokens.Keys, expectedTokens, tokens)
        invariant reasons == old(reasons) + if missing > before then {MissingUsageReason} else {}
        decreases rest
      {
        var model :| model in rest;
        ShortfallWithout(rest, expectedTokens, tokens, model);
        rest := rest - {model};
        AddMissing(expectedTokens[model], At(tokens, model));
      }
    }

    method Result() returns (result: CostResult)
      ensures result == ResultOf(Value())
    {
      hide Ordered;
      var listed: seq<Reason> := [];
      for i := 0 to |REASON_ORDER|
        invariant listed + Ordered(reasons, REASON_ORDER[i..]) == Ordered(reasons, REASON_ORDER[0..])
      {
        NextReason(reasons, REASON_ORDER, i, listed);
        if REASON_ORDER[i] in reasons { listed := listed + [REASON_ORDER[i]]; }
      }
      NoReasonLeft(reasons, REASON_ORDER, listed);
      result := CostResult(amount, priceKnown, if |listed| > 0 then Partial else Complete, |unpriced|, listed, counts, missing);
    }
  }

  /** A cell with rows is in the report. */
  ghost predicate Present(g: Grouping, texts: seq<TextRow>, images: seq<ImageRow>, group: CostGroup) {
    (exists row :: row in texts && TextGroup(g)(row) == group) || (exists row :: row in images && ImageGroup(g)(row) == group)
  }

  /** The accumulators stand for the cells of the rows seen so far, one object each. */
  ghost predicate Stands(accs: map<CostGroup, CostAccumulator>, p: Pricing, g: Grouping,
                         texts: seq<TextRow>, images: seq<ImageRow>)
    reads accs.Values
  {
    && (forall a, b | a in accs && b in accs && a != b :: accs[a] != accs[b])
    && (forall group | group in accs :: accs[group].Value() == Cell(p, g, texts, images, group))
    && (forall group :: group in accs <==> Present(g, texts, images, group))
  }

  lemma TextRowNext(p: Pricing, g: Grouping, texts: seq<TextRow>, row: TextRow, group: CostGroup)
    ensures Cell(p, g, texts + [row], [], group)
         == if TextGroup(g)(row) == group then TextStep(p, Cell(p, g, texts, [], group), row) else Cell(p, g, texts, [], group)
    ensures Present(g, texts + [row], [], group) <==> Present(g, texts, [], group) || TextGroup(g)(row) == group
    ensures !Present(g, texts, [], group) ==> Cell(p, g, texts, [], group) == NEW_ACC
  {
    hide TextStep, TextGroup;
    PartSnoc(texts, row, TextGroup(g), group);
    ConcatSnoc(Part(texts, TextGroup(g), group), row);
    assert forall r :: r in texts + [row] <==> r in texts || r == row;
    if !Present(g, texts, [], group) { PartEmpty(texts, TextGroup(g), group); }
  }

  lemma ImageRowNext(p: Pricing, g: Grouping, texts: seq<TextRow>, images: seq<ImageRow>, row: ImageRow, group: CostGroup)
    ensures Cell(p, g, texts, images + [row], group)
         == if ImageGroup(g)(row) == group then ImageStep(p, Cell(p, g, texts, images, group), row)
            else Cell(p, g, texts, images, group)
    ensures Present(g, texts, images + [row], group) <==> Present(g, texts, images, group) || ImageGroup(g)(row) == group
    ensures !Present(g, texts, images, group) ==> Cell(p, g, texts, images, group) == NEW_ACC
  {
    hide TextStep, ImageStep, TextGroup, ImageGroup;
    PartSnoc(images, row, ImageGroup(g), group);
    ConcatSnoc(Part(images, ImageGroup(g), group), row);
    assert forall r :: r in images + [row] <==> r in images || r == row;
    if !Present(g, texts, images, group) {
      PartEmpty(images, ImageGroup(g), group);
      PartEmpty(texts, TextGroup(g), group);
    }
  }

  method GetAccumulator(accs: map<CostGroup, CostAccumulator>, group: CostGroup)
    returns (acc: CostAccumulator, grown: map<CostGroup, CostAccumulator>)
    ensures group in accs ==> acc == accs[group] && grown == accs
    ensures group !in accs ==> fresh(acc) && acc.Value() == NEW_ACC && grown == accs[group := acc]
  {
    if group in accs { return accs[group], accs; }
    acc := new CostAccumulator();
    grown := accs[group := acc];
  }

  /** One text row is added to the accumulator of its group and to no other. */
  method AddTextToGroup(accs: map<CostGroup, CostAccumulator>, p: Pricing, g: Grouping, ghost texts: seq<TextRow>, row: TextRow)
    returns (grown: map<CostGroup, CostAccumulator>)
    requires Stands(accs, p, g, texts, [])
    modifies accs.Values
    ensures Stands(grown, p, g, texts + [row], [])
    ensures forall group | group in grown :: (group in accs && grown[group] == accs[group]) || fresh(grown[group])
  {
    hide TextStep, Cell, TextGroup, Present, CostAccumulator.Value;
    var group := TextGroup(g)(row);
    var acc;
    acc, grown := GetAccumulator(accs, group);
    acc.AddTextRow(p, row);
    forall any ensures any in grown <==> Present(g, texts + [row], [], any) { TextRowNext(p, g, texts, row, any); }
    forall any | any in grown ensures grown[any].Value() == Cell(p, g, texts + [row], [], any) {
      TextRowNext(p, g, texts, row, any);
      if any != group { assert any in accs && grown[any] == accs[any] != acc; }
    }
  }

  method AddImageToGroup(accs: map<CostGroup, CostAccumulator>, p: Pricing, g: Grouping, ghost texts: seq<TextRow>,
                         ghost images: seq<ImageRow>, row: ImageRow)
    returns (grown: map<CostGroup, CostAccumulator>)
    requires Stands(accs, p, g, texts, images)
    modifies accs.Values
    ensures Stands(grown, p, g, texts, images + [row])
    ensures forall group | group in grown :: (group in accs && grown[group] == accs[group]) || fresh(grown[group])
  {
    hide ImageStep, Cell, ImageGroup, Present, CostAccumulator.Value;
    var group := ImageGroup(g)(row);
    var acc;
    acc, grown := GetAccumulator(accs, group);
    acc.AddImageRow(p, row);
    forall any ensures any in grown <==> Present(g, texts, images + [row], any) { ImageRowNext(p, g, texts, images, row, any); }
    forall any | any in grown ensures grown[any].Value() == Cell(p, g, texts, images + [row], any) {
      ImageRowNext(p, g, texts, images, row, any);
      if any != group { assert any in accs && grown[any] == accs[any] != acc; }
    }
  }

  method TextLoop(p: Pricing, texts: seq<TextRow>, g: Grouping) returns (accs: map<CostGroup, CostAccumulator>)
    ensures forall group | group in accs :: fresh(accs[group])
    ensures Stands(accs, p, g, texts, [])
  {
    hide Cell, Present, CostAccumulator.Value;
    accs := map[];
    NothingPresent(g);
    for i := 0 to |texts|
      invariant forall group | group in accs :: fresh(accs[group])
      invariant Stands(accs, p, g, texts[..i], [])
    {
      accs := AddTextToGroup(accs, p, g, texts[..i], texts[i]);
      assert texts[..i + 1] == texts[..i] + [texts[i]];
    }
    assert texts[..|texts|] == texts;
  }

  method ImageLoop(accs: map<CostGroup, CostAccumulator>, p: Pricing, texts: seq<TextRow>, images: seq<ImageRow>, g: Grouping)
    returns (grown: map<CostGroup, CostAccumulator>)
    requires Stands(accs, p, g, texts, [])
    modifies accs.Values
    ensures forall group | group in grown :: (group in accs && grown[group] == accs[group]) || fresh(grown[group])
    ensures Stands(grown, p, g, texts, images)
  {
    hide Cell, Present, CostAccumulator.Value;
    grown := accs;
    for i := 0 to |images|
      invariant forall group | group in grown :: (group in accs && grown[group] == accs[group]) || fresh(grown[group])
      invariant Stands(grown, p, g, texts, images[..i])
    {
      grown := AddImageToGroup(grown, p, g, texts, images[..i], images[i]);
      assert images[..i + 1] == images[..i] + [images[i]];
    }
    assert images[..|images|] == images;
  }

  lemma NothingPresent(g: Grouping)
    ensures forall group :: !Present(g, [], [], group)
  {}

  /** The report: a cell for every group with rows, and nothing else. */
  method EvaluateCostBuckets(p: Pricing, texts: seq<TextRow>, images: seq<ImageRow>, g: Grouping)
    returns (results: map<CostGroup, CostResult>)
    ensures forall group :: group in results <==> Present(g, texts, images, group)
    ensures forall group | group in results :: results[group] == ResultOf(Finalised(Cell(p, g, texts, images, group)))
  {
    hide Cell, Present, Finalised, ResultOf, CostAccumulator.Value;
    var accs := TextLoop(p, texts, g);
    accs := ImageLoop(accs, p, texts, images, g);
    results := map[];
    var rest := accs.Keys;
    while rest != {}
      invariant rest <= accs.Keys
      invariant forall group | group in accs :: fresh(accs[group])
      invariant forall a, b | a in accs && b in accs && a != b :: accs[a] != accs[b]
      invariant forall group | group in rest :: accs[group].Value() == Cell(p, g, texts, images, group)
      invariant forall group :: group in results <==> group in accs && group !in rest
      invariant forall group | group in results :: results[group] == ResultOf(Finalised(Cell(p, g, texts, images, group)))
      decreases rest
    {
      var group :| group in rest;
      rest := rest - {group};
      accs[group].FinalizeImageCompleteness();
      var result := accs[group].Result();
      results := results[group := result];
    }
  }
}
