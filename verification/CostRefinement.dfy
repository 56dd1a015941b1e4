/**
 Coarse and fine buckets over the same requests: the summary and the time series of a report
 come from queries that group by different columns, and so from different buckets.
 */
module CostRefinement {
  import opened Bytes
  import opened Sums
  import opened Pricing
  import opened CostBuckets
  import opened ImageBuckets
  import opened CostReport

  /** Every column the coarse query groups by, the fine one groups by too. */
  predicate Refines(fine: Filter, coarse: Filter) {
    (coarse.byTime ==> fine.byTime) && (coarse.byKey ==> fine.byKey) && (coarse.byOperation ==> fine.byOperation)
  }

  /** The coarse bucket that a fine bucket goes into. */
  function Coarsen(coarse: Filter): TextKey -> TextKey {
    (k: TextKey) => k.(bucket := Shown(coarse.byTime, k.bucket), keyHash := Shown(coarse.byKey, k.keyHash),
                       operation := Shown(coarse.byOperation, k.operation))
  }

  /** The keys of a query are those of its requests, once each. */
  ghost predicate Groups<T(!new), K(!new)>(keys: seq<K>, xs: seq<T>, key: T -> K) {
    Lists(keys, xs, key) && forall k | k in keys :: exists x :: x in xs && key(x) == k
  }

  lemma CoarsenKey(fine: Filter, coarse: Filter, r: Request)
    requires Refines(fine, coarse)
    ensures Coarsen(coarse)(TextKeyOf(fine)(r)) == TextKeyOf(coarse)(r)
  {}

  // ---------- what a bucket loses ----------

  /** Output less reasoning, of a request and of a bucket. */
  function SurplusOf(): Request -> int { (r: Request) => TextTallyOf(r).output - TextTallyOf(r).reasoning }

  function RegularOf(): Request -> int { (r: Request) => Regular(TextTallyOf(r)) }

  function Surplus(rs: seq<Request>): int { Total(rs, SurplusOf()) }

  lemma {:induction false} TotalsOfTally(rs: seq<Request>)
    ensures TextTotal(rs).output - TextTotal(rs).reasoning == Surplus(rs)
    ensures RegularTotal(rs) == Total(rs, RegularOf())
  {
    hide TextTallyOf;
    if rs != [] { TotalsOfTally(rs[1..]); }
  }

  /** The regular output that the requests have one by one and the bucket does not. */
  function Excess(rs: seq<Request>): int { RegularTotal(rs) - Max(Surplus(rs), 0) }

  /** The price of the excess in the tier of a bucket. */
  function Lost(p: Pricing, k: TextKey, excess: int): real {
    match Tier(p, k.model, k.requestInput, k.imageRequest)
    case None => 0.0
    case Some(mp) => if mp.reasoning > 0.0 then Charge(excess, mp.output) else 0.0
  }

  lemma BucketLosesExcess(p: Pricing, k: TextKey, rs: seq<Request>)
    requires OneTier(p, rs, Tier(p, k.model, k.requestInput, k.imageRequest))
    ensures TextRowCost(p)(TextRow(k, TextTotal(rs))) == Sum(rs, TextCost(p)) - Lost(p, k, Excess(rs))
  {
    hide TallyCost, OwnCost, TextTotal, TextTallyOf, InputCharge, Charge, Tier, RegularTotal, Surplus;
    var t := TextTotal(rs);
    RowCostIs(p, k, t);
    match Tier(p, k.model, k.requestInput, k.imageRequest) {
      case None => NoTierNoCost(p, rs);
      case Some(mp) =>
        OneByOne(p, rs, mp);
        TotalOk(rs);
        CostSplits(mp, t);
        TotalsOfTally(rs);
        ChargeAdds(Regular(t), Excess(rs), mp.output);
    }
  }

  // ---------- one coarse bucket and its fine buckets ----------

  function SurplusAt(rs: seq<Request>, fine: Filter, k: TextKey): int { Surplus(Part(rs, TextKeyOf(fine), k)) }

  function ExcessAt(rs: seq<Request>, fine: Filter, k: TextKey): int { Excess(Part(rs, TextKeyOf(fine), k)) }

  function CostAt(p: Pricing, rs: seq<Request>, fine: Filter, k: TextKey): real {
    TextRowCost(p)(TextRow(k, TextTotal(Part(rs, TextKeyOf(fine), k))))
  }

  function FineSurplus(rs: seq<Request>, fine: Filter): TextKey -> int { (k: TextKey) => SurplusAt(rs, fine, k) }

  function FineRegular(rs: seq<Request>, fine: Filter): TextKey -> int { (k: TextKey) => Max(SurplusAt(rs, fine, k), 0) }

  function FineExcess(rs: seq<Request>, fine: Filter): TextKey -> int { (k: TextKey) => ExcessAt(rs, fine, k) }

  function FineCost(p: Pricing, rs: seq<Request>, fine: Filter): TextKey -> real {
    (k: TextKey) => CostAt(p, rs, fine, k)
  }

  /** Fine buckets of one coarse bucket, one with more output than reasoning and one with less. */
  ghost predicate MixedParts(rs: seq<Request>, fine: Filter, ks: seq<TextKey>) {
    (exists k :: k in ks && FineSurplus(rs, fine)(k) > 0) && (exists k :: k in ks && FineSurplus(rs, fine)(k) < 0)
  }

  lemma {:induction false} TotalExcess(rs: seq<Request>, fine: Filter, ks: seq<TextKey>)
    ensures Total(ks, FineExcess(rs, fine))
         == TotalOfParts(rs, TextKeyOf(fine), ks, RegularOf()) - Total(ks, FineRegular(rs, fine))
    ensures Total(ks, FineSurplus(rs, fine)) == TotalOfParts(rs, TextKeyOf(fine), ks, SurplusOf())
  {
    hide Part, RegularTotal, RegularOf, SurplusOf;
    if ks != [] {
      var part := Part(rs, TextKeyOf(fine), ks[0]);
      TotalsOfTally(part);
      TotalExcess(rs, fine, ks[1..]);
    }
  }

  /** The excess of a bucket is at least that of its parts, and the same exactly when they do not mix. */
  lemma ExcessOfParts(rs: seq<Request>, fine: Filter, ks: seq<TextKey>)
    requires Lists(ks, rs, TextKeyOf(fine))
    ensures Total(ks, FineExcess(rs, fine)) <= Excess(rs)
    ensures Total(ks, FineExcess(rs, fine)) == Excess(rs) <==> !MixedParts(rs, fine, ks)
  {
    hide Total, SurplusAt, ExcessAt, TextKeyOf, RegularTotal;
    TotalExcess(rs, fine, ks);
    TotalsOfTally(rs);
    SumByParts(rs, TextKeyOf(fine), ks, (r: Request) => 0.0, RegularOf());
    SumByParts(rs, TextKeyOf(fine), ks, (r: Request) => 0.0, SurplusOf());
    ClampedTotal(ks, FineSurplus(rs, fine), FineRegular(rs, fine));
  }

  predicate SameTier(a: TextKey, b: TextKey) {
    a.model == b.model && a.requestInput == b.requestInput && a.imageRequest == b.imageRequest
  }

  lemma {:induction false} FineCosts(p: Pricing, rs: seq<Request>, fine: Filter, ks: seq<TextKey>, coarse: TextKey)
    requires forall k | k in ks :: SameTier(k, coarse)
    ensures Sum(ks, FineCost(p, rs, fine))
         == SumOfParts(rs, TextKeyOf(fine), ks, TextCost(p)) - Lost(p, coarse, Total(ks, FineExcess(rs, fine)))
  {
    hide TextCost, TextRowCost, Part, Tier, TextTotal, Excess, Charge;
    if ks == [] {
      NothingLost(p, coarse);
    } else {
      var k, part := ks[0], Part(rs, TextKeyOf(fine), ks[0]);
      PartMembers(rs, TextKeyOf(fine), k);
      assert SameTier(k, coarse);
      assert OneTier(p, part, Tier(p, k.model, k.requestInput, k.imageRequest));
      BucketLosesExcess(p, k, part);
      FineCosts(p, rs, fine, ks[1..], coarse);
      LostAdds(p, coarse, Excess(part), Total(ks[1..], FineExcess(rs, fine)));
    }
  }

  lemma NothingLost(p: Pricing, k: TextKey)
    ensures Lost(p, k, 0) == 0.0
  {
    hide Tier;
  }

  lemma LostAdds(p: Pricing, k: TextKey, a: int, b: int)
    ensures Lost(p, k, a + b) == Lost(p, k, a) + Lost(p, k, b)
  {
    hide Tier, Charge;
    match Tier(p, k.model, k.requestInput, k.imageRequest)
    case None =>
    case Some(mp) => ChargeAdds(a, b, mp.output);
  }

  /** More excess loses more, where the clamp shows. */
  lemma LostGrows(p: Pricing, k: TextKey, a: int, b: int)
    requires PricesOk(p) && a <= b
    ensures Lost(p, k, a) <= Lost(p, k, b)
    ensures Lost(p, k, a) == Lost(p, k, b) <==> a == b || !ShowsIn(p, k)
  {
    hide Tier, Charge, PricesOk;
    match Tier(p, k.model, k.requestInput, k.imageRequest)
    case None =>
    case Some(mp) =>
      TierRatesOk(p, k.model, k.requestInput, k.imageRequest);
      ChargeGrows(a, b, mp.output);
      if mp.output == 0.0 {
        FreeCharge(a);
        FreeCharge(b);
      }
  }

  predicate ShowsIn(p: Pricing, k: TextKey) {
    var tier := Tier(p, k.model, k.requestInput, k.imageRequest);
    tier.Some? && ClampShows(tier.value)
  }

  /** One coarse bucket against the fine buckets it is made of. */
  lemma CoarseAgainstParts(p: Pricing, rs: seq<Request>, fine: Filter, ks: seq<TextKey>, coarse: TextKey)
    requires PricesOk(p) && Lists(ks, rs, TextKeyOf(fine)) && forall k | k in ks :: SameTier(k, coarse)
    requires OneTier(p, rs, Tier(p, coarse.model, coarse.requestInput, coarse.imageRequest))
    ensures TextRowCost(p)(TextRow(coarse, TextTotal(rs))) <= Sum(ks, FineCost(p, rs, fine))
    ensures TextRowCost(p)(TextRow(coarse, TextTotal(rs))) == Sum(ks, FineCost(p, rs, fine))
       <==> !(ShowsIn(p, coarse) && MixedParts(rs, fine, ks))
  {
    hide TextRowCost, TextCost, Tier, PricesOk, Excess, Lost, ShowsIn, MixedParts, FineExcess, FineCost, TextTotal;
    BucketLosesExcess(p, coarse, rs);
    FineCosts(p, rs, fine, ks, coarse);
    SumByParts(rs, TextKeyOf(fine), ks, TextCost(p), (r: Request) => 0);
    ExcessOfParts(rs, fine, ks);
    LostGrows(p, coarse, Total(ks, FineExcess(rs, fine)), Excess(rs));
  }

  // ---------- all buckets ----------

  lemma {:induction false} PartOfPart(rs: seq<Request>, fine: Filter, coarse: Filter, k: TextKey)
    requires Refines(fine, coarse)
    ensures Part(Part(rs, TextKeyOf(coarse), Coarsen(coarse)(k)), TextKeyOf(fine), k) == Part(rs, TextKeyOf(fine), k)
  {
    hide TextKeyOf, Coarsen, Refines;
    if rs != [] {
      PartOfPart(rs[1..], fine, coarse, k);
      CoarsenKey(fine, coarse, rs[0]);
      var rest := Part(rs[1..], TextKeyOf(coarse), Coarsen(coarse)(k));
      ConcatEmpty(rest);
      ConcatEmpty(Part(rs[1..], TextKeyOf(fine), k));
      assert ([rs[0]] + rest)[1..] == rest;
    }
  }

  lemma {:induction false} PartDistinct<T, K>(xs: seq<T>, key: T -> K, k: K)
    requires Distinct(xs)
    ensures Distinct(Part(xs, key, k))
  {
    if xs != [] {
      PartDistinct(xs[1..], key, k);
      PartMembers(xs[1..], key, k);
      assert xs[0] !in xs[1..];
    }
  }

  /** Splitting this coarse bucket makes it dearer. */
  ghost predicate SplitShows(p: Pricing, rs: seq<Request>, fine: Filter, coarse: Filter, fineKeys: seq<TextKey>, k: TextKey) {
    ShowsIn(p, k) && MixedParts(rs, fine, Part(fineKeys, Coarsen(coarse), k))
  }

  lemma {:induction false} SameParts(p: Pricing, rs: seq<Request>, fine: Filter, coarse: Filter, ks: seq<TextKey>, k: TextKey)
    requires Refines(fine, coarse) && forall x | x in ks :: Coarsen(coarse)(x) == k
    ensures var part := Part(rs, TextKeyOf(coarse), k);
      && Sum(ks, FineCost(p, part, fine)) == Sum(ks, FineCost(p, rs, fine))
      && (forall x | x in ks :: FineSurplus(part, fine)(x) == FineSurplus(rs, fine)(x))
  {
    hide Coarsen, TextRowCost, Surplus, TextTotal, Part, Refines;
    var part := Part(rs, TextKeyOf(coarse), k);
    forall x | x in ks
      ensures FineCost(p, part, fine)(x) == FineCost(p, rs, fine)(x) && FineSurplus(part, fine)(x) == FineSurplus(rs, fine)(x)
    {
      PartOfPart(rs, fine, coarse, x);
    }
    SumSame(ks, FineCost(p, part, fine), FineCost(p, rs, fine));
  }

  /** The fine keys of a coarse bucket list its requests and have its tier. */
  lemma PartsFit(p: Pricing, rs: seq<Request>, fine: Filter, coarse: Filter, fineKeys: seq<TextKey>, k: TextKey)
    requires Refines(fine, coarse) && Lists(fineKeys, rs, TextKeyOf(fine))
    ensures var ks := Part(fineKeys, Coarsen(coarse), k);
      var part := Part(rs, TextKeyOf(coarse), k);
      && Lists(ks, part, TextKeyOf(fine)) && OneTier(p, part, Tier(p, k.model, k.requestInput, k.imageRequest))
      && (forall x | x in ks :: Coarsen(coarse)(x) == k && SameTier(x, k))
  {
    hide Part, Tier;
    PartMembers(fineKeys, Coarsen(coarse), k);
    PartMembers(rs, TextKeyOf(coarse), k);
    PartDistinct(fineKeys, Coarsen(coarse), k);
  }

  lemma BucketRefined(p: Pricing, rs: seq<Request>, fine: Filter, coarse: Filter, fineKeys: seq<TextKey>, k: TextKey)
    requires PricesOk(p) && Refines(fine, coarse) && Lists(fineKeys, rs, TextKeyOf(fine))
    ensures var bucket := CostAt(p, rs, coarse, k);
      var parts := Sum(Part(fineKeys, Coarsen(coarse), k), FineCost(p, rs, fine));
      bucket <= parts && (bucket == parts <==> !SplitShows(p, rs, fine, coarse, fineKeys, k))
  {
    hide PricesOk, ShowsIn, SurplusAt, TextRowCost, TextTotal, Tier, Part, Refines, OneTier, Lists, TextKeyOf, Coarsen;
    var ks := Part(fineKeys, Coarsen(coarse), k);
    var part := Part(rs, TextKeyOf(coarse), k);
    PartsFit(p, rs, fine, coarse, fineKeys, k);
    CoarseAgainstParts(p, part, fine, ks, k);
    SameParts(p, rs, fine, coarse, ks, k);
  }

  lemma {:induction false} RowsByKey(p: Pricing, rs: seq<Request>, f: Filter, keys: seq<TextKey>)
    ensures Sum(TextRows(rs, f, keys), TextRowCost(p)) == Sum(keys, FineCost(p, rs, f))
  {
    hide TextRowCost, TextTotal, Part;
    if keys != [] {
      RowsByKey(p, rs, f, keys[1..]);
      assert TextRows(rs, f, keys)[1..] == TextRows(rs, f, keys[1..]);
    }
  }

  lemma {:induction false} AllRefined(p: Pricing, rs: seq<Request>, fine: Filter, coarse: Filter,
                                      fineKeys: seq<TextKey>, keys: seq<TextKey>)
    requires PricesOk(p) && Refines(fine, coarse) && Lists(fineKeys, rs, TextKeyOf(fine))
    ensures var buckets := Sum(keys, FineCost(p, rs, coarse));
      var parts := SumOfParts(fineKeys, Coarsen(coarse), keys, FineCost(p, rs, fine));
      buckets <= parts && (buckets == parts <==> forall k | k in keys :: !SplitShows(p, rs, fine, coarse, fineKeys, k))
  {
    hide CostAt, PricesOk, SplitShows, Part, Lists, Refines;
    if keys != [] {
      var rest := keys[1..];
      BucketRefined(p, rs, fine, coarse, fineKeys, keys[0]);
      AllRefined(p, rs, fine, coarse, fineKeys, rest);
      assert forall k :: k in keys <==> k == keys[0] || k in rest;
      assert FineCost(p, rs, coarse)(keys[0]) == CostAt(p, rs, coarse, keys[0]);
    }
  }

  lemma FineKeysCoarsened(rs: seq<Request>, fine: Filter, coarse: Filter, fineKeys: seq<TextKey>, coarseKeys: seq<TextKey>)
    requires Refines(fine, coarse)
    requires Groups(fineKeys, rs, TextKeyOf(fine)) && Lists(coarseKeys, rs, TextKeyOf(coarse))
    ensures Lists(coarseKeys, fineKeys, Coarsen(coarse))
  {
    hide TextKeyOf, Coarsen;
    forall k | k in fineKeys ensures Coarsen(coarse)(k) in coarseKeys {
      var r :| r in rs && TextKeyOf(fine)(r) == k;
      CoarsenKey(fine, coarse, r);
    }
  }

  /**
   Grouping by more columns never lowers the text total, and keeps it exactly when no coarse bucket, at positive
   rates for both, has a fine bucket with more output than reasoning and one with less.
   */
  lemma RefiningNeverLowers(p: Pricing, rs: seq<Request>, fine: Filter, coarse: Filter,
                            fineKeys: seq<TextKey>, coarseKeys: seq<TextKey>)
    requires PricesOk(p) && Refines(fine, coarse)
    requires Groups(fineKeys, rs, TextKeyOf(fine)) && Lists(coarseKeys, rs, TextKeyOf(coarse))
    ensures var few := Sum(TextRows(rs, coarse, coarseKeys), TextRowCost(p));
      var many := Sum(TextRows(rs, fine, fineKeys), TextRowCost(p));
      few <= many && (few == many <==> forall k | k in coarseKeys :: !SplitShows(p, rs, fine, coarse, fineKeys, k))
  {
    hide TextRowCost, PricesOk, SplitShows, TextKeyOf, Coarsen, FineCost, Refines;
    RowsByKey(p, rs, coarse, coarseKeys);
    RowsByKey(p, rs, fine, fineKeys);
    FineKeysCoarsened(rs, fine, coarse, fineKeys, coarseKeys);
    SumByParts(fineKeys, Coarsen(coarse), coarseKeys, FineCost(p, rs, fine), (k: TextKey) => 0);
    AllRefined(p, rs, fine, coarse, fineKeys, coarseKeys);
  }

  /** The ungrouped amount of a summary and of a finer report over the same requests, images included. */
  lemma SummaryAgainstSeries(p: Pricing, rs: seq<Request>, fine: Filter, coarse: Filter,
                             fineKeys: seq<TextKey>, coarseKeys: seq<TextKey>,
                             fineImages: seq<ImageKey>, coarseImages: seq<ImageKey>)
    requires PricesOk(p) && Refines(fine, coarse)
    requires Groups(fineKeys, rs, TextKeyOf(fine)) && Lists(coarseKeys, rs, TextKeyOf(coarse))
    requires Lists(fineImages, Entries(rs), ImageKeyOf(fine)) && Lists(coarseImages, Entries(rs), ImageKeyOf(coarse))
    ensures var summary := Fold(p, TextRows(rs, coarse, coarseKeys), ImageRows(Entries(rs), coarse, coarseImages)).amount;
      var series := Fold(p, TextRows(rs, fine, fineKeys), ImageRows(Entries(rs), fine, fineImages)).amount;
      && summary <= series <= Sum(rs, RequestCost(p))
      && (summary == series <==> forall k | k in coarseKeys :: !SplitShows(p, rs, fine, coarse, fineKeys, k))
  {
    hide Fold, PricesOk, SplitShows, Refines, LosesIn;
    FoldAmount(p, TextRows(rs, coarse, coarseKeys), ImageRows(Entries(rs), coarse, coarseImages));
    FoldAmount(p, TextRows(rs, fine, fineKeys), ImageRows(Entries(rs), fine, fineImages));
    RefiningNeverLowers(p, rs, fine, coarse, fineKeys, coarseKeys);
    TextBucketsExactly(p, rs, fine, fineKeys);
    ImageBucketsExactly(p, rs, fine, fineImages);
    ImageBucketsExactly(p, rs, coarse, coarseImages);
    OneOrTheOther(p, rs);
  }

  lemma SurplusOfOne(r: Request)
    ensures Surplus([r]) == TextTallyOf(r).output - TextTallyOf(r).reasoning
  {
    hide TextTallyOf;
    assert Total([r][1..], SurplusOf()) == 0;
  }

  lemma PairInOwnBuckets(a: Request, b: Request, fine: Filter)
    requires TextKeyOf(fine)(a) != TextKeyOf(fine)(b)
    ensures SurplusAt([a, b], fine, TextKeyOf(fine)(a)) == TextTallyOf(a).output - TextTallyOf(a).reasoning
    ensures SurplusAt([a, b], fine, TextKeyOf(fine)(b)) == TextTallyOf(b).output - TextTallyOf(b).reasoning
  {
    hide TextTallyOf, TextKeyOf;
    PartOfTwo(a, b, TextKeyOf(fine), TextKeyOf(fine)(a));
    PartOfTwo(a, b, TextKeyOf(fine), TextKeyOf(fine)(b));
    assert [a] + [] == [a] && [] + [b] == [b];
    SurplusOfOne(a);
    SurplusOfOne(b);
  }

  /** A summary that is really cheaper than its time series: the two requests of an hour each fall into one bucket of it. */
  lemma SeriesDearerThanSummary()
    returns (p: Pricing, rs: seq<Request>, fine: Filter, fineKeys: seq<TextKey>, coarseKeys: seq<TextKey>)
    ensures PricesOk(p) && Refines(fine, UNGROUPED)
    ensures Groups(fineKeys, rs, TextKeyOf(fine)) && Lists(coarseKeys, rs, TextKeyOf(UNGROUPED))
    ensures Sum(TextRows(rs, UNGROUPED, coarseKeys), TextRowCost(p)) < Sum(TextRows(rs, fine, fineKeys), TextRowCost(p))
  {
    p := Pricing(map["m" := ModelPrice(1.0, 1.0, 1.0, 1.0, 0.0, None)], map[], map[], map[]);
    var over := Request("1", "", "m", 200, 1, 0, 5, 0, 0, [], ImageTokens(0, 0, 0, 0, 0, 0, 0, 0, 0),
                        Capture(false, "", "", "captured"));
    var under := over.(bucket := "2", output := 5, reasoning := 0);
    fine := Filter(true, false, false);
    var k, k1, k2 := TextKeyOf(UNGROUPED)(over), TextKeyOf(fine)(over), TextKeyOf(fine)(under);
    rs, fineKeys, coarseKeys := [over, under], [k1, k2], [k];
    assert k1.bucket[0] != k2.bucket[0];
    assert TextTallyOf(over).output == 0 && TextTallyOf(over).reasoning == 5;
    assert TextTallyOf(under).output == 5 && TextTallyOf(under).reasoning == 0;
    hide TextTallyOf;
    PairInOwnBuckets(over, under, fine);
    PartOfTwo(k1, k2, Coarsen(UNGROUPED), k);
    hide Part;
    assert over in rs && under in rs && k in coarseKeys && k1 in fineKeys && k2 in fineKeys;
    assert Part(fineKeys, Coarsen(UNGROUPED), k) == fineKeys;
    assert FineSurplus(rs, fine)(k1) < 0 && FineSurplus(rs, fine)(k2) > 0;
    assert Lookup(p, "m").Some?;
    assert SplitShows(p, rs, fine, UNGROUPED, fineKeys, k);
    hide *;
    RefiningNeverLowers(p, rs, fine, UNGROUPED, fineKeys, coarseKeys);
  }
}
