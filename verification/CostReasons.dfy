/** Why a cost is partial: the reasons of a cell, in terms of its rows and of the requests. */
module CostReasons {
  import opened Bytes
  import opened Sums
  import opened Pricing
  import opened CostBuckets
  import opened ImageBuckets
  import opened CostReport

  /** The classes that give a reason, and the reason. */
  function ReasonOf(c: Confidence): Option<Reason> {
    match c
    case RequestOnly => Some(RequestOnlyReason)
    case MissingUsage => Some(MissingUsageReason)
    case Unsupported => Some(UnsupportedReason)
    case Conflict => Some(UsageConflict)
    case _ => None
  }

  /** A text row gives the reason of every class it counts. */
  predicate TextGives(row: TextRow, r: Reason) { exists c :: ReasonOf(c) == Some(r) && Get(row.tally.counts, c) > 0 }

  /** An image row gives a reason when output counts are missing, or when the price of its output is that of a size it only stands in for. */
  predicate ImageGives(p: Pricing, row: ImageRow, r: Reason) {
    || (r == ImageCountMissing && row.tally.missingOutput > 0)
    || (r == ImageSizeDefaulted && HasMultimodal(p, row.key.model) && HasPerImagePricing(p, row.key.model)
        && NormalizeImageSize(row.key.size).1 && row.tally.outputCount > 0)
  }

  /** `b` has the reasons of `a`, unpriced models aside. */
  ghost predicate SameReasons(a: Acc, b: Acc) { forall r | r != UnpricedModel :: r in b.reasons <==> r in a.reasons }

  lemma UnpricedKeepsReasons(a: Acc, model: string)
    ensures SameReasons(a, Unpriced(a, model))
  {}

  lemma ReasonGiven(a: Acc, on: bool, x: Reason, r: Reason)
    ensures r in WithReason(a, on, x).reasons <==> r in a.reasons || (on && r == x)
  {}

  lemma CountsGive(a: Acc, c: Counts, r: Reason)
    ensures r in WithCounts(a, c).reasons <==>
              r in a.reasons || exists k :: ReasonOf(k) == Some(r) && Get(c, k) > 0
  {
    hide AddCounts, WithReason;
    var a0 := a.(counts := AddCounts(a.counts, c), missing := a.missing + c.missing);
    var a1 := WithReason(a0, c.requestOnly > 0, RequestOnlyReason);
    var a2 := WithReason(a1, c.missing > 0, MissingUsageReason);
    var a3 := WithReason(a2, c.unsupported > 0, UnsupportedReason);
    ReasonGiven(a0, c.requestOnly > 0, RequestOnlyReason, r);
    ReasonGiven(a1, c.missing > 0, MissingUsageReason, r);
    ReasonGiven(a2, c.unsupported > 0, UnsupportedReason, r);
    ReasonGiven(a3, c.conflict > 0, UsageConflict, r);
    ClassesGive(c, r);
  }

  lemma ClassesGive(c: Counts, r: Reason)
    ensures (exists k :: ReasonOf(k) == Some(r) && Get(c, k) > 0) <==>
              || (r == RequestOnlyReason && c.requestOnly > 0) || (r == MissingUsageReason && c.missing > 0)
              || (r == UnsupportedReason && c.unsupported > 0) || (r == UsageConflict && c.conflict > 0)
  {
    assert ReasonOf(RequestOnly) == Some(RequestOnlyReason) && ReasonOf(MissingUsage) == Some(MissingUsageReason);
    assert ReasonOf(Unsupported) == Some(UnsupportedReason) && ReasonOf(Conflict) == Some(UsageConflict);
  }

  lemma TextStepGives(p: Pricing, a: Acc, row: TextRow, r: Reason)
    requires r != UnpricedModel
    ensures r in TextStep(p, a, row).reasons <==> r in a.reasons || TextGives(row, r)
  {
    hide WithCounts, HasMultimodal, CostText, TextBillable, At, Get;
    CountsGive(a, row.tally.counts, r);
  }

  lemma {:induction false} DimensionsKeepReasons(p: Pricing, a: Acc, model: string, ds: seq<Dimension>)
    ensures SameReasons(a, DimensionsStep(p, a, model, ds))
    decreases ds
  {
    hide CostDimension, Unpriced;
    if ds != [] {
      UnpricedKeepsReasons(a, model);
      DimensionsKeepReasons(p, DimensionStep(p, a, model, ds[0].channel, ds[0].direction, ds[0].amount), model, ds[1..]);
    }
  }

  lemma PerImageGives(p: Pricing, a: Acc, row: ImageRow, r: Reason)
    requires r != UnpricedModel
    ensures r in PerImageStep(p, a, row).reasons <==>
              r in a.reasons || (r == ImageSizeDefaulted && NormalizeImageSize(row.key.size).1 && row.tally.outputCount > 0)
  {
    hide LookupMultimodal, NormalizeImageSize;
  }

  lemma MultimodalGives(p: Pricing, a: Acc, row: ImageRow, r: Reason)
    requires r != UnpricedModel && HasMultimodal(p, row.key.model)
    ensures r in MultimodalStep(p, a, row).reasons <==>
              r in a.reasons || (r == ImageSizeDefaulted && HasPerImagePricing(p, row.key.model)
                                 && NormalizeImageSize(row.key.size).1 && row.tally.outputCount > 0)
  {
    hide HasMultimodal, HasImageTokenPricing, HasPerImagePricing, ImageBillable, DimensionsStep, Dimensions, PerImageStep,
      NormalizeImageSize, At;
    DimensionsKeepReasons(p, a, row.key.model, Dimensions(row.tally.tokens));
    var b := if HasImageTokenPricing(p, row.key.model) then ByTokenStep(p, a, row) else a;
    assert SameReasons(a, b);
    PerImageGives(p, b, row, r);
  }

  lemma ImageStepGives(p: Pricing, a: Acc, row: ImageRow, r: Reason)
    requires r != UnpricedModel
    ensures r in ImageStep(p, a, row).reasons <==> r in a.reasons || ImageGives(p, row, r)
  {
    hide HasMultimodal, HasPerImagePricing, ImageBillable, MultimodalStep, NormalizeImageSize;
    var a0 := WithReason(a, row.tally.missingOutput > 0, ImageCountMissing);
    if HasMultimodal(p, row.key.model) { MultimodalGives(p, a0, row, r); }
  }

  lemma {:induction false} TextFoldGives(p: Pricing, texts: seq<TextRow>, r: Reason)
    requires r != UnpricedModel
    ensures r in TextFold(p, texts).reasons <==> exists row :: row in texts && TextGives(row, r)
  {
    hide TextStep, TextGives;
    if texts != [] {
      var before, last := texts[..|texts| - 1], texts[|texts| - 1];
      TextFoldGives(p, before, r);
      TextStepGives(p, TextFold(p, before), last, r);
      assert forall row :: row in texts <==> row in before || row == last;
    }
  }

  lemma {:induction false} FoldGives(p: Pricing, texts: seq<TextRow>, images: seq<ImageRow>, r: Reason)
    requires r != UnpricedModel
    ensures r in Fold(p, texts, images).reasons <==>
              (exists row :: row in texts && TextGives(row, r)) || (exists row :: row in images && ImageGives(p, row, r))
    decreases images
  {
    hide ImageStep, TextGives, ImageGives, TextFold;
    if images == [] {
      TextFoldGives(p, texts, r);
    } else {
      var before, last := images[..|images| - 1], images[|images| - 1];
      FoldGives(p, texts, before, r);
      ImageStepGives(p, Fold(p, texts, before), last, r);
      assert forall row :: row in images <==> row in before || row == last;
    }
  }

  /**
   A cell has a reason exactly when one of its rows gives it: its models that are unpriced, the classes its text rows
   count, what its image rows lack, and usage that its images should have reported. A failed query is none of them.
   */
  lemma ReasonsExactly(p: Pricing, texts: seq<TextRow>, images: seq<ImageRow>, r: Reason)
    ensures var a := Fold(p, texts, images);
      r in Finalised(a).reasons <==>
        || (r == UnpricedModel && exists m :: UnpricedIn(p, texts, images, m))
        || (r == MissingUsageReason && Finalised(a).missing > a.missing)
        || (r != UnpricedModel && exists row :: row in texts && TextGives(row, r))
        || (r != UnpricedModel && exists row :: row in images && ImageGives(p, row, r))
    ensures CostQueryFailed !in Finalised(Fold(p, texts, images)).reasons
  {
    hide Fold, UnpricedIn, Shortfall;
    if r != UnpricedModel { FoldGives(p, texts, images, r); }
    FoldGives(p, texts, images, CostQueryFailed);
    UnpricedExactly(p, texts, images);
  }

  // ---------- the requests behind a reason ----------

  lemma {:induction false} SomeMember(rs: seq<Request>, c: Confidence)
    ensures Get(TextTotal(rs).counts, c) > 0 <==> exists r :: r in rs && Belongs(r, c)
  {
    hide TextTallyOf, Belongs, Get;
    if rs == [] {
      assert Get(NO_COUNTS, c) == 0 by { NoneCounted(c); }
    } else {
      SomeMember(rs[1..], c);
      CountsNotNegative(rs[1..], c);
      ClassOfRequest(rs[0], c);
      MemberOfClass(rs[0], c);
      CountsAddUp(TextTallyOf(rs[0]).counts, TextTotal(rs[1..]).counts, c);
      assert forall r :: r in rs <==> r == rs[0] || r in rs[1..];
    }
  }

  lemma NoneCounted(c: Confidence)
    ensures Get(NO_COUNTS, c) == 0
  {}

  lemma CountsAddUp(a: Counts, b: Counts, c: Confidence)
    ensures Get(AddCounts(a, b), c) == Get(a, c) + Get(b, c)
  {}

  /** The text rows of a report give a reason exactly when one of the requests is of a class that does. */
  lemma RequestsGive(rs: seq<Request>, f: Filter, keys: seq<TextKey>, r: Reason)
    requires Lists(keys, rs, TextKeyOf(f))
    ensures (exists row :: row in TextRows(rs, f, keys) && TextGives(row, r))
       <==> exists q, c :: q in rs && ReasonOf(c) == Some(r) && Belongs(q, c)
  {
    hide Belongs, Get, TextTotal, TextKeyOf, Part, TextRows, ReasonOf;
    if row :| row in TextRows(rs, f, keys) && TextGives(row, r) {
      TextRowFrom(rs, f, keys, row);
      var c :| ReasonOf(c) == Some(r) && Get(row.tally.counts, c) > 0;
      SomeMember(Part(rs, TextKeyOf(f), row.key), c);
      PartMembers(rs, TextKeyOf(f), row.key);
    }
    if q, c :| q in rs && ReasonOf(c) == Some(r) && Belongs(q, c) {
      var k := TextKeyOf(f)(q);
      TextRowMember(rs, f, keys, k);
      PartMembers(rs, TextKeyOf(f), k);
      assert q in Part(rs, TextKeyOf(f), k);
      SomeMember(Part(rs, TextKeyOf(f), k), c);
      assert TextGives(TextRowOf(rs, f, k), r);
    }
  }
}
