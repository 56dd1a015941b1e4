/** Folding requests into buckets of one price, and what pricing a bucket makes of pricing its requests. */
module CostBuckets {
  import opened Bytes
  import opened Sums
  import opened Pricing

  // ---------- requests ----------

  datatype Confidence = Observed | SideChannel | RequestOnly | MissingUsage | Unsupported | Conflict

  datatype Counts = Counts(observed: int, sideChannel: int, requestOnly: int, missing: int, unsupported: int,
                           conflict: int)

  datatype Capture = Capture(conflict: bool, usageSource: string, mode: string, outcome: string)

  datatype ImageTokens = ImageTokens(inputText: int, cachedText: int, inputImage: int, cachedImage: int,
                                     inputMixed: int, cachedMixed: int,
                                     outputText: int, outputImage: int, outputMixed: int)

  datatype Image = Image(operation: string, size: string, inputCount: int, outputCount: int, partialCount: int)

  /** A row of the request table with its image rows and its summed image token dimensions. */
  datatype Request = Request(bucket: string, keyHash: string, model: string, status: int,
                             input: int, output: int, reasoning: int, cached: int, creation: int,
                             images: seq<Image>, dims: ImageTokens, capture: Capture)

  /** The first condition that applies. */
  function Classify(c: Capture, used: bool): Confidence {
    if c.conflict then Conflict
    else if c.usageSource == "cliproxy_side_channel" then SideChannel
    else if c.mode == "request_only" then RequestOnly
    else if c.mode == "passthrough" then Unsupported
    else if c.outcome == "captured" then Observed
    else if c.outcome == "" && used then Observed
    else MissingUsage
  }

  const NO_COUNTS := Counts(0, 0, 0, 0, 0, 0)

  function One(b: bool): int { if b then 1 else 0 }

  function CountOf(c: Confidence): Counts {
    Counts(One(c.Observed?), One(c.SideChannel?), One(c.RequestOnly?), One(c.MissingUsage?), One(c.Unsupported?),
           One(c.Conflict?))
  }

  function AddCounts(a: Counts, b: Counts): Counts {
    Counts(a.observed + b.observed, a.sideChannel + b.sideChannel, a.requestOnly + b.requestOnly,
           a.missing + b.missing, a.unsupported + b.unsupported, a.conflict + b.conflict)
  }

  function AllSix(c: Counts): int {
    c.observed + c.sideChannel + c.requestOnly + c.missing + c.unsupported + c.conflict
  }

  // ---------- text buckets ----------

  datatype TextKey = TextKey(bucket: string, keyHash: string, model: string, operation: string, requestInput: int,
                             imageRequest: bool)

  datatype TextTally = TextTally(requests: int, used: int, input: int, output: int, reasoning: int, cached: int,
                                 creation: int, counts: Counts)

  datatype TextRow = TextRow(key: TextKey, tally: TextTally)

  const NO_TEXT := TextTally(0, 0, 0, 0, 0, 0, 0, NO_COUNTS)

  function AddText(a: TextTally, b: TextTally): TextTally {
    TextTally(a.requests + b.requests, a.used + b.used, a.input + b.input, a.output + b.output,
              a.reasoning + b.reasoning, a.cached + b.cached, a.creation + b.creation, AddCounts(a.counts, b.counts))
  }

  /** Which of the optional columns a query groups by; the others are empty. */
  datatype Filter = Filter(byTime: bool, byKey: bool, byOperation: bool)

  const UNGROUPED := Filter(false, false, false)

  function Shown(on: bool, column: string): string { if on then column else "" }

  /** The operation of a text bucket is that of the first image row. */
  function OperationOf(r: Request): string { if r.images == [] then "unknown" else r.images[0].operation }

  function TextKeyOf(f: Filter): Request -> TextKey {
    (r: Request) => TextKey(Shown(f.byTime, r.bucket), Shown(f.byKey, r.keyHash), r.model,
                            Shown(f.byOperation, OperationOf(r)), Max(r.input, 0), r.images != [])
  }

  /** One request, its input split so that cached and creation tokens lie within the billable input. */
  function TextTallyOf(r: Request): TextTally {
    var input := Max(r.input, 0);
    var output := Max(r.output, 0);
    var reasoning := Max(r.reasoning, 0);
    var creation := if input > 0 then Min(Max(r.creation, 0), input) else Max(r.creation, 0);
    var cached := if input > 0 then Min(Max(r.cached, 0), Max(input - creation, 0)) else Max(r.cached, 0);
    var billable := if input > 0 then input else cached + creation;
    var any := input > 0 || output > 0 || reasoning > 0 || cached > 0 || creation > 0;
    TextTally(1, One(billable > 0 || output > 0 || reasoning > 0), billable, output, reasoning, cached, creation,
              CountOf(Classify(r.capture, any)))
  }

  function TextTotal(rs: seq<Request>): TextTally {
    if rs == [] then NO_TEXT else AddText(TextTallyOf(rs[0]), TextTotal(rs[1..]))
  }

  function TextRowOf(rs: seq<Request>, f: Filter, k: TextKey): TextRow {
    TextRow(k, TextTotal(Part(rs, TextKeyOf(f), k)))
  }

  /** The grouped rows, for the keys in any order. */
  function TextRows(rs: seq<Request>, f: Filter, keys: seq<TextKey>): seq<TextRow> {
    if keys == [] then [] else [TextRowOf(rs, f, keys[0])] + TextRows(rs, f, keys[1..])
  }

  /** The text price that applies; none for image requests of models billed by image dimensions. */
  function Tier(p: Pricing, model: string, requestInput: int, imageRequest: bool): Option<ModelPrice> {
    if imageRequest && HasMultimodal(p, model) then None
    else match Lookup(p, model)
    case None => None
    case Some(mp) => Some(ResolveTextTier(mp, requestInput))
  }

  function TextRowCost(p: Pricing): TextRow -> real {
    (row: TextRow) =>
      if row.key.imageRequest && HasMultimodal(p, row.key.model) then 0.0
      else match CostText(p, row.key.model, row.key.requestInput, row.tally.input, row.tally.output,
                          row.tally.reasoning, row.tally.cached, row.tally.creation)
      case None => 0.0
      case Some(cost) => cost
  }

  function TallyCost(mp: ModelPrice, t: TextTally): real {
    ComputeCost(mp, t.input, t.output, t.reasoning, t.cached, t.creation)
  }

  function OwnCost(mp: ModelPrice, r: Request): real {
    ComputeCost(mp, Max(r.input, 0), Max(r.output, 0), Max(r.reasoning, 0), Max(r.cached, 0), Max(r.creation, 0))
  }

  /** The price of one request by itself, from its own columns. */
  function TextCost(p: Pricing): Request -> real {
    (r: Request) =>
      match Tier(p, r.model, Max(r.input, 0), r.images != [])
      case None => 0.0
      case Some(mp) => OwnCost(mp, r)
  }

  predicate RatesOk(mp: ModelPrice) {
    mp.input >= 0.0 && mp.cachedInput >= 0.0 && mp.output >= 0.0 && mp.reasoning >= 0.0 && mp.cacheCreation >= 0.0
  }

  /** What a loaded price file guarantees: no negative price. */
  predicate PricesOk(p: Pricing) {
    forall m | m in p.models ::
      var mp := p.models[m];
      RatesOk(mp) && (mp.long.Some? ==>
        var lc := mp.long.value;
        lc.input >= 0.0 && lc.cachedInput >= 0.0 && lc.output >= 0.0 && lc.reasoning >= 0.0 && lc.cacheCreation >= 0.0)
  }

  lemma TierRatesOk(p: Pricing, model: string, requestInput: int, imageRequest: bool)
    requires PricesOk(p)
    ensures var t := Tier(p, model, requestInput, imageRequest); t.Some? ==> RatesOk(t.value)
  {}

  // ---------- one bucket ----------

  predicate TallyOk(t: TextTally) {
    && t.output >= 0 && t.reasoning >= 0 && t.cached >= 0 && t.creation >= 0 && t.cached + t.creation <= t.input
  }

  function InputCharge(mp: ModelPrice, t: TextTally): real {
    Charge(t.cached, mp.cachedInput) + Charge(t.input - t.cached - t.creation, mp.input)
    + Charge(t.creation, CreationRate(mp))
  }

  /** The output part, with `regular` the output that is not reasoning. */
  function OutputCharge(mp: ModelPrice, regular: int, t: TextTally): real {
    if mp.reasoning > 0.0 then Charge(regular, mp.output) + Charge(t.reasoning, mp.reasoning)
    else Charge(t.output, mp.output)
  }

  function Regular(t: TextTally): int { Max(t.output - t.reasoning, 0) }

  lemma CostSplits(mp: ModelPrice, t: TextTally)
    requires TallyOk(t)
    ensures TallyCost(mp, t) == InputCharge(mp, t) + OutputCharge(mp, Regular(t), t)
  {
    hide Charge;
    forall rate ensures Charge(0, rate) == 0.0 { ChargeZero(rate); }
  }

  lemma CostOfBreakdown(mp: ModelPrice, i: int, c: int, cr: int, i': int, c': int, cr': int, output: int, reasoning: int)
    requires InputBreakdown(i, c, cr) == InputBreakdown(i', c', cr')
    ensures ComputeCost(mp, i, output, reasoning, c, cr) == ComputeCost(mp, i', output, reasoning, c', cr')
  {
    hide Charge;
  }

  /** Splitting the input beforehand leaves the price of the request as it was. */
  lemma NormalisedCostsTheSame(mp: ModelPrice, r: Request)
    ensures TallyOk(TextTallyOf(r)) && TallyCost(mp, TextTallyOf(r)) == OwnCost(mp, r)
  {
    hide Charge, Classify, CountOf, ComputeCost;
    var t := TextTallyOf(r);
    assert InputBreakdown(t.input, t.cached, t.creation)
        == InputBreakdown(Max(r.input, 0), Max(r.cached, 0), Max(r.creation, 0));
    CostOfBreakdown(mp, t.input, t.cached, t.creation, Max(r.input, 0), Max(r.cached, 0), Max(r.creation, 0),
                    t.output, t.reasoning);
  }

  lemma InputChargeAdds(mp: ModelPrice, a: TextTally, b: TextTally)
    ensures InputCharge(mp, AddText(a, b)) == InputCharge(mp, a) + InputCharge(mp, b)
  {
    hide Charge;
    ChargeAdds(a.cached, b.cached, mp.cachedInput);
    ChargeAdds(a.input - a.cached - a.creation, b.input - b.cached - b.creation, mp.input);
    ChargeAdds(a.creation, b.creation, CreationRate(mp));
  }

  lemma OutputChargeAdds(mp: ModelPrice, x: int, a: TextTally, y: int, b: TextTally)
    ensures OutputCharge(mp, x + y, AddText(a, b)) == OutputCharge(mp, x, a) + OutputCharge(mp, y, b)
  {
    hide Charge;
    ChargeAdds(x, y, mp.output);
    ChargeAdds(a.reasoning, b.reasoning, mp.reasoning);
    ChargeAdds(a.output, b.output, mp.output);
  }

  /** Regular output summed request by request. */
  function RegularTotal(rs: seq<Request>): int {
    if rs == [] then 0 else Regular(TextTallyOf(rs[0])) + RegularTotal(rs[1..])
  }

  predicate ReasoningOver(r: Request) { TextTallyOf(r).reasoning > TextTallyOf(r).output }

  predicate ReasoningUnder(r: Request) { TextTallyOf(r).reasoning < TextTallyOf(r).output }

  /** Some request reports more reasoning than output and another less. */
  predicate Mixed(rs: seq<Request>) {
    (exists r :: r in rs && ReasoningOver(r)) && (exists r :: r in rs && ReasoningUnder(r))
  }

  lemma OneOk(r: Request)
    ensures TallyOk(TextTallyOf(r))
  {
    hide Classify, CountOf;
  }

  lemma {:induction false} TotalOk(rs: seq<Request>)
    ensures TallyOk(TextTotal(rs))
  {
    hide TextTallyOf;
    if rs != [] {
      OneOk(rs[0]);
      TotalOk(rs[1..]);
    }
  }

  lemma {:induction false} ClampBeforeOrAfter(rs: seq<Request>)
    ensures var t := TextTotal(rs);
      && Regular(t) <= RegularTotal(rs)
      && RegularTotal(rs) >= t.output - t.reasoning
      && (RegularTotal(rs) == 0 <==> forall r | r in rs :: !ReasoningUnder(r))
      && (RegularTotal(rs) == t.output - t.reasoning <==> forall r | r in rs :: !ReasoningOver(r))
  {
    hide TextTallyOf;
    if rs != [] {
      ClampBeforeOrAfter(rs[1..]);
      var rest := rs[1..];
      assert forall r :: r in rs <==> r == rs[0] || r in rest;
      assert (forall r | r in rs :: !ReasoningUnder(r)) <==> !ReasoningUnder(rs[0]) && forall r | r in rest :: !ReasoningUnder(r);
      assert (forall r | r in rs :: !ReasoningOver(r)) <==> !ReasoningOver(rs[0]) && forall r | r in rest :: !ReasoningOver(r);
    }
  }

  /** Clamping the sum is at most summing the clamped, and the same exactly for an unmixed bucket. */
  lemma ClampCommutesExactly(rs: seq<Request>)
    ensures Regular(TextTotal(rs)) <= RegularTotal(rs)
    ensures Regular(TextTotal(rs)) == RegularTotal(rs) <==> !Mixed(rs)
  {
    hide TextTotal, RegularTotal, ReasoningOver, ReasoningUnder;
    ClampBeforeOrAfter(rs);
  }

  predicate OneTier(p: Pricing, rs: seq<Request>, tier: Option<ModelPrice>) {
    forall r | r in rs :: Tier(p, r.model, Max(r.input, 0), r.images != []) == tier
  }

  /** Pricing the requests of one tier one by one. */
  lemma {:induction false} OneByOne(p: Pricing, rs: seq<Request>, mp: ModelPrice)
    requires OneTier(p, rs, Some(mp))
    ensures Sum(rs, TextCost(p)) == InputCharge(mp, TextTotal(rs)) + OutputCharge(mp, RegularTotal(rs), TextTotal(rs))
  {
    hide Charge, TallyCost, OwnCost, InputCharge, OutputCharge, TextTallyOf, Tier;
    if rs == [] {
      NothingCharged(mp);
    } else {
      OneByOne(p, rs[1..], mp);
      var t := TextTallyOf(rs[0]);
      assert rs[0] in rs;
      NormalisedCostsTheSame(mp, rs[0]);
      CostSplits(mp, t);
      InputChargeAdds(mp, t, TextTotal(rs[1..]));
      OutputChargeAdds(mp, Regular(t), t, RegularTotal(rs[1..]), TextTotal(rs[1..]));
    }
  }

  lemma NothingCharged(mp: ModelPrice)
    ensures InputCharge(mp, NO_TEXT) == 0.0 && OutputCharge(mp, 0, NO_TEXT) == 0.0
  {
    hide Charge;
    forall rate ensures Charge(0, rate) == 0.0 { ChargeZero(rate); }
  }

  lemma {:induction false} NoTierNoCost(p: Pricing, rs: seq<Request>)
    requires OneTier(p, rs, None)
    ensures Sum(rs, TextCost(p)) == 0.0
  {
    if rs != [] {
      assert rs[0] in rs;
      NoTierNoCost(p, rs[1..]);
    }
  }

  lemma RowCostIs(p: Pricing, k: TextKey, t: TextTally)
    ensures TextRowCost(p)(TextRow(k, t)) == match Tier(p, k.model, k.requestInput, k.imageRequest)
      case None => 0.0
      case Some(mp) => TallyCost(mp, t)
  {
    hide ComputeCost;
  }

  /** Both rates are charged in the tier, so that the clamp of the regular output shows in the price. */
  predicate ClampShows(mp: ModelPrice) { mp.reasoning > 0.0 && mp.output > 0.0 }

  /** The bucket loses money against its requests. */
  predicate Loses(p: Pricing, k: TextKey, rs: seq<Request>) {
    var tier := Tier(p, k.model, k.requestInput, k.imageRequest);
    tier.Some? && ClampShows(tier.value) && Mixed(rs)
  }

  /** A bucket is never dearer than its requests, and the same exactly unless it mixes. */
  lemma BucketCostExactly(p: Pricing, k: TextKey, rs: seq<Request>)
    requires PricesOk(p)
    requires OneTier(p, rs, Tier(p, k.model, k.requestInput, k.imageRequest))
    ensures TextRowCost(p)(TextRow(k, TextTotal(rs))) <= Sum(rs, TextCost(p))
    ensures TextRowCost(p)(TextRow(k, TextTotal(rs))) == Sum(rs, TextCost(p)) <==> !Loses(p, k, rs)
  {
    hide TallyCost, OwnCost, TextTotal, TextTallyOf, Mixed, InputCharge, Charge, Tier, RegularTotal, PricesOk;
    var t := TextTotal(rs);
    var tier := Tier(p, k.model, k.requestInput, k.imageRequest);
    RowCostIs(p, k, t);
    match tier {
      case None => NoTierNoCost(p, rs);
      case Some(mp) =>
        TierRatesOk(p, k.model, k.requestInput, k.imageRequest);
        OneByOne(p, rs, mp);
        TotalOk(rs);
        CostSplits(mp, t);
        ClampCommutesExactly(rs);
        ChargeGrows(Regular(t), RegularTotal(rs), mp.output);
        if mp.output == 0.0 {
          FreeCharge(Regular(t));
          FreeCharge(RegularTotal(rs));
        }
    }
  }

  // ---------- all the text buckets ----------

  predicate LosesIn(p: Pricing, rs: seq<Request>, f: Filter, k: TextKey) {
    Loses(p, k, Part(rs, TextKeyOf(f), k))
  }

  lemma BucketOf(p: Pricing, rs: seq<Request>, f: Filter, k: TextKey)
    requires PricesOk(p)
    ensures var requests := Sum(Part(rs, TextKeyOf(f), k), TextCost(p));
      var bucket := TextRowCost(p)(TextRowOf(rs, f, k));
      bucket <= requests && (bucket == requests <==> !LosesIn(p, rs, f, k))
  {
    hide TextRowCost, TextCost, Loses, Part, Tier, PricesOk, TextTotal;
    var part := Part(rs, TextKeyOf(f), k);
    PartMembers(rs, TextKeyOf(f), k);
    assert OneTier(p, part, Tier(p, k.model, k.requestInput, k.imageRequest));
    BucketCostExactly(p, k, part);
  }

  lemma {:induction false} RowsAgainstParts(p: Pricing, rs: seq<Request>, f: Filter, keys: seq<TextKey>)
    requires PricesOk(p)
    ensures Sum(TextRows(rs, f, keys), TextRowCost(p))
         <= SumOfParts(rs, TextKeyOf(f), keys, TextCost(p))
    ensures Sum(TextRows(rs, f, keys), TextRowCost(p))
         == SumOfParts(rs, TextKeyOf(f), keys, TextCost(p))
        <==> forall k | k in keys :: !LosesIn(p, rs, f, k)
  {
    hide TextRowCost, TextCost, LosesIn, Part, PricesOk, TextRowOf, TextKeyOf;
    if keys != [] {
      BucketOf(p, rs, f, keys[0]);
      RowsAgainstParts(p, rs, f, keys[1..]);
      var rest := keys[1..];
      assert forall k :: k in keys <==> k == keys[0] || k in rest;
      assert (forall k | k in keys :: !LosesIn(p, rs, f, k))
        <==> !LosesIn(p, rs, f, keys[0]) && forall k | k in rest :: !LosesIn(p, rs, f, k);
      var rows := TextRows(rs, f, keys);
      assert rows[1..] == TextRows(rs, f, rest);
    }
  }

  /**
   * Bucketed text pricing: at most the sum over the requests, each in its own tier, and equal to it exactly
   * when no bucket mixes requests with more reasoning than output and requests with less at positive rates.
   */
  lemma TextBucketsExactly(p: Pricing, rs: seq<Request>, f: Filter, keys: seq<TextKey>)
    requires PricesOk(p) && Lists(keys, rs, TextKeyOf(f))
    ensures Sum(TextRows(rs, f, keys), TextRowCost(p)) <= Sum(rs, TextCost(p))
    ensures Sum(TextRows(rs, f, keys), TextRowCost(p)) == Sum(rs, TextCost(p))
        <==> forall k | k in keys :: !LosesIn(p, rs, f, k)
  {
    hide LosesIn;
    RowsAgainstParts(p, rs, f, keys);
    SumByParts(rs, TextKeyOf(f), keys, TextCost(p), (r: Request) => 0);
  }

  /** A bucket that mixes is really cheaper: an excess of reasoning in one request eats the output of the other. */
  lemma MixingLosesMoney() returns (p: Pricing, rs: seq<Request>, keys: seq<TextKey>)
    ensures PricesOk(p) && Lists(keys, rs, TextKeyOf(UNGROUPED))
    ensures Sum(TextRows(rs, UNGROUPED, keys), TextRowCost(p)) < Sum(rs, TextCost(p))
  {
    p := Pricing(map["m" := ModelPrice(1.0, 1.0, 1.0, 1.0, 0.0, None)], map[], map[], map[]);
    var over := Request("", "", "m", 200, 1, 0, 5, 0, 0, [], ImageTokens(0, 0, 0, 0, 0, 0, 0, 0, 0),
                        Capture(false, "", "", "captured"));
    var under := over.(output := 5, reasoning := 0);
    var k := TextKeyOf(UNGROUPED)(over);
    rs, keys := [over, under], [k];
    hide Charge, Classify, CountOf;
    assert Part([under], TextKeyOf(UNGROUPED), k) == [under] && rs[1..] == [under] && [over] + [under] == rs;
    assert ReasoningOver(over) && ReasoningUnder(under) && over in rs && under in rs;
    assert Lookup(p, "m").Some?;
    assert LosesIn(p, rs, UNGROUPED, k) && k in keys;
    hide *;
    TextBucketsExactly(p, rs, UNGROUPED, keys);
  }

  /** With reasoning within output everywhere no bucket mixes. */
  lemma WithinOutputNeverLoses(p: Pricing, rs: seq<Request>, f: Filter, k: TextKey)
    requires forall r | r in rs :: r.reasoning <= r.output
    ensures !LosesIn(p, rs, f, k)
  {
    hide Tier, Part, TextKeyOf;
    PartMembers(rs, TextKeyOf(f), k);
  }

  // ---------- confidence counts ----------

  function Get(counts: Counts, c: Confidence): int {
    match c
    case Observed => counts.observed
    case SideChannel => counts.sideChannel
    case RequestOnly => counts.requestOnly
    case MissingUsage => counts.missing
    case Unsupported => counts.unsupported
    case Conflict => counts.conflict
  }

  function TextConfidence(r: Request): Confidence {
    Classify(r.capture, r.input > 0 || r.output > 0 || r.reasoning > 0 || r.cached > 0 || r.creation > 0)
  }

  function RowCount(c: Confidence): TextRow -> int { (row: TextRow) => Get(row.tally.counts, c) }

  function RequestCount(c: Confidence): Request -> int { (r: Request) => One(TextConfidence(r) == c) }

  /** The classification sees the clamped and split columns, which are used exactly when the raw ones are. */
  lemma ClassOfRequest(r: Request, c: Confidence)
    ensures Get(TextTallyOf(r).counts, c) == One(TextConfidence(r) == c)
  {
    hide Classify;
  }

  lemma {:induction false} TotalCounts(rs: seq<Request>, c: Confidence)
    ensures Get(TextTotal(rs).counts, c) == Total(rs, RequestCount(c))
  {
    hide TextTallyOf, TextConfidence;
    if rs != [] {
      ClassOfRequest(rs[0], c);
      TotalCounts(rs[1..], c);
    }
  }

  lemma {:induction false} CountsByParts(rs: seq<Request>, f: Filter, keys: seq<TextKey>, c: Confidence)
    ensures Total(TextRows(rs, f, keys), RowCount(c))
         == TotalOfParts(rs, TextKeyOf(f), keys, RequestCount(c))
  {
    hide TextTotal, Part;
    if keys != [] {
      TotalCounts(Part(rs, TextKeyOf(f), keys[0]), c);
      CountsByParts(rs, f, keys[1..], c);
      assert TextRows(rs, f, keys)[1..] == TextRows(rs, f, keys[1..]);
    }
  }

  /** Over all buckets, each count is the number of requests of its class. */
  lemma CountsAreRequests(rs: seq<Request>, f: Filter, keys: seq<TextKey>, c: Confidence)
    requires Lists(keys, rs, TextKeyOf(f))
    ensures Total(TextRows(rs, f, keys), RowCount(c)) == Total(rs, RequestCount(c))
  {
    CountsByParts(rs, f, keys, c);
    SumByParts(rs, TextKeyOf(f), keys, (r: Request) => 0.0, RequestCount(c));
  }

  function UsedOf(): Request -> int { (r: Request) => One(ReportsTokens(r)) }

  /** A bucket counts all of its requests, and those that report tokens. */
  lemma {:induction false} TallyOfRequests(rs: seq<Request>)
    ensures TextTotal(rs).requests == |rs| && TextTotal(rs).used == Total(rs, UsedOf())
  {
    hide Classify, CountOf, AddCounts;
    if rs != [] { TallyOfRequests(rs[1..]); }
  }

  /** Some token count of the request is positive. */
  predicate ReportsTokens(r: Request) {
    r.input > 0 || r.output > 0 || r.reasoning > 0 || r.cached > 0 || r.creation > 0
  }

  /** Neither a conflict nor filled in from the side channel. */
  predicate OwnUsage(r: Request) { !r.capture.conflict && r.capture.usageSource != "cliproxy_side_channel" }

  /** Neither of the modes in which nothing is captured. */
  predicate Capturing(r: Request) { r.capture.mode != "request_only" && r.capture.mode != "passthrough" }

  /** It was captured, or was recorded without an outcome but with tokens. */
  predicate HasOutcome(r: Request) { r.capture.outcome == "captured" || (r.capture.outcome == "" && ReportsTokens(r)) }

  /** What each class means of a request. */
  predicate Belongs(r: Request, c: Confidence) {
    match c
    case Conflict => r.capture.conflict
    case SideChannel => !r.capture.conflict && !OwnUsage(r)
    case RequestOnly => OwnUsage(r) && r.capture.mode == "request_only"
    case Unsupported => OwnUsage(r) && r.capture.mode == "passthrough"
    case Observed => OwnUsage(r) && Capturing(r) && HasOutcome(r)
    case MissingUsage => OwnUsage(r) && Capturing(r) && !HasOutcome(r)
  }

  function MemberCount(c: Confidence): Request -> int { (r: Request) => One(Belongs(r, c)) }

  lemma MemberOfClass(r: Request, c: Confidence)
    ensures Belongs(r, c) <==> TextConfidence(r) == c
  {
    assert "request_only"[0] != "passthrough"[0];
    assert |"captured"| > 0;
  }

  /** Each count of all buckets together is the number of requests that the class is about. */
  lemma CountsExactly(rs: seq<Request>, f: Filter, keys: seq<TextKey>, c: Confidence)
    requires Lists(keys, rs, TextKeyOf(f))
    ensures Total(TextRows(rs, f, keys), RowCount(c)) == Total(rs, MemberCount(c))
  {
    hide TextConfidence, Belongs, TextRows;
    CountsAreRequests(rs, f, keys, c);
    forall r | r in rs ensures RequestCount(c)(r) == MemberCount(c)(r) { MemberOfClass(r, c); }
    TotalSame(rs, RequestCount(c), MemberCount(c));
  }

  lemma {:induction false} CountsNotNegative(rs: seq<Request>, c: Confidence)
    ensures Get(TextTotal(rs).counts, c) >= 0
  {
    hide TextTallyOf, Classify;
    if rs != [] {
      CountsNotNegative(rs[1..], c);
      ClassOfRequest(rs[0], c);
    }
  }

  /** Every request is in exactly one class. */
  lemma {:induction false} SixClassesCover(rs: seq<Request>)
    ensures Total(rs, RequestCount(Observed)) + Total(rs, RequestCount(SideChannel))
          + Total(rs, RequestCount(RequestOnly)) + Total(rs, RequestCount(MissingUsage))
          + Total(rs, RequestCount(Unsupported)) + Total(rs, RequestCount(Conflict)) == |rs|
  {
    hide TextConfidence;
    if rs != [] { SixClassesCover(rs[1..]); }
  }
}
