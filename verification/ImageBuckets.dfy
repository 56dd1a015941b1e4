/** Folding the image rows of requests into buckets, and what pricing a bucket makes of pricing its images. */
module ImageBuckets {
  import opened Bytes
  import opened Sums
  import opened Pricing
  import opened CostBuckets

  /** An image row joined with its request. */
  datatype Entry = Entry(r: Request, image: Image)

  function EntriesOf(r: Request, images: seq<Image>): seq<Entry> {
    if images == [] then [] else [Entry(r, images[0])] + EntriesOf(r, images[1..])
  }

  function Entries(rs: seq<Request>): seq<Entry> {
    if rs == [] then [] else EntriesOf(rs[0], rs[0].images) + Entries(rs[1..])
  }

  datatype ImageKey = ImageKey(bucket: string, keyHash: string, model: string, operation: string, size: string)

  datatype ImageTally = ImageTally(requests: int, failed: int, inputCount: int, outputCount: int, partialCount: int,
                                   missingOutput: int, tokenUsed: int, tokens: ImageTokens, counts: Counts)

  datatype ImageRow = ImageRow(key: ImageKey, tally: ImageTally)

  const NO_TOKENS := ImageTokens(0, 0, 0, 0, 0, 0, 0, 0, 0)

  const NO_IMAGES := ImageTally(0, 0, 0, 0, 0, 0, 0, NO_TOKENS, NO_COUNTS)

  function AddTokens(a: ImageTokens, b: ImageTokens): ImageTokens {
    ImageTokens(a.inputText + b.inputText, a.cachedText + b.cachedText,
                a.inputImage + b.inputImage, a.cachedImage + b.cachedImage,
                a.inputMixed + b.inputMixed, a.cachedMixed + b.cachedMixed,
                a.outputText + b.outputText, a.outputImage + b.outputImage, a.outputMixed + b.outputMixed)
  }

  function AddImages(a: ImageTally, b: ImageTally): ImageTally {
    ImageTally(a.requests + b.requests, a.failed + b.failed, a.inputCount + b.inputCount, a.outputCount + b.outputCount,
               a.partialCount + b.partialCount, a.missingOutput + b.missingOutput, a.tokenUsed + b.tokenUsed,
               AddTokens(a.tokens, b.tokens), AddCounts(a.counts, b.counts))
  }

  /** An image bucket always has the operation of its image rows. */
  function ImageKeyOf(f: Filter): Entry -> ImageKey {
    (e: Entry) => ImageKey(Shown(f.byTime, e.r.bucket), Shown(f.byKey, e.r.keyHash), e.r.model, e.image.operation, e.image.size)
  }

  /** Input not served from the cache, and cached input; without input, all the cached tokens are billed. */
  function SplitCached(input: int, cached: int): (int, int) {
    var input := Max(input, 0);
    var cached := Max(cached, 0);
    if input > 0 then (Max(input - Min(cached, input), 0), Min(cached, input)) else (0, cached)
  }

  lemma SplitConserves(input: int, cached: int)
    ensures var (regular, billed) := SplitCached(input, cached);
      && regular >= 0 && billed >= 0 && (input > 0 ==> regular + billed == input && billed <= Max(cached, 0))
  {}

  function BilledTokens(d: ImageTokens): ImageTokens {
    var text := SplitCached(d.inputText, d.cachedText);
    var image := SplitCached(d.inputImage, d.cachedImage);
    var mixed := SplitCached(d.inputMixed, d.cachedMixed);
    ImageTokens(text.0, text.1, image.0, image.1, mixed.0, mixed.1,
                Max(d.outputText, 0), Max(d.outputImage, 0), Max(d.outputMixed, 0))
  }

  predicate AnyToken(t: ImageTokens) {
    t.inputText > 0 || t.cachedText > 0 || t.inputImage > 0 || t.cachedImage > 0 || t.inputMixed > 0
    || t.cachedMixed > 0 || t.outputText > 0 || t.outputImage > 0 || t.outputMixed > 0
  }

  function ImageTallyOf(e: Entry): ImageTally {
    var output := Max(e.image.outputCount, 0);
    ImageTally(1, One(e.r.status >= 400), Max(e.image.inputCount, 0), output, Max(e.image.partialCount, 0),
               One(200 <= e.r.status < 400 && e.r.capture.mode != "request_only" && output <= 0),
               One(AnyToken(BilledTokens(e.r.dims))), BilledTokens(e.r.dims),
               CountOf(Classify(e.r.capture, AnyToken(e.r.dims))))
  }

  function ImageTotal(es: seq<Entry>): ImageTally {
    if es == [] then NO_IMAGES else AddImages(ImageTallyOf(es[0]), ImageTotal(es[1..]))
  }

  function ImageRowOf(es: seq<Entry>, f: Filter, k: ImageKey): ImageRow { ImageRow(k, ImageTotal(Part(es, ImageKeyOf(f), k))) }

  function ImageRows(es: seq<Entry>, f: Filter, keys: seq<ImageKey>): seq<ImageRow> {
    if keys == [] then [] else [ImageRowOf(es, f, keys[0])] + ImageRows(es, f, keys[1..])
  }

  /** A tally has tokens unless it is empty. */
  lemma AnyTokenExactly(t: ImageTokens)
    requires TokensOk(t)
    ensures AnyToken(t) <==> t != NO_TOKENS
  {}

  function FailedOf(): Entry -> int { (e: Entry) => One(e.r.status >= 400) }

  function PartialOf(): Entry -> int { (e: Entry) => Max(e.image.partialCount, 0) }

  function CountMissingOf(): Entry -> int {
    (e: Entry) => One(200 <= e.r.status < 400 && e.r.capture.mode != "request_only" && e.image.outputCount <= 0)
  }

  function BilledOf(): Entry -> int { (e: Entry) => One(AnyToken(BilledTokens(e.r.dims))) }

  /** What a bucket counts of its images: all of them, the failed ones, the partial images, the successes without a count, and those with tokens. */
  lemma {:induction false} TallyCounts(es: seq<Entry>)
    ensures ImageTotal(es).requests == |es| && ImageTotal(es).failed == Total(es, FailedOf())
    ensures ImageTotal(es).partialCount == Total(es, PartialOf()) && ImageTotal(es).missingOutput == Total(es, CountMissingOf())
    ensures ImageTotal(es).tokenUsed == Total(es, BilledOf())
  {
    hide Classify, CountOf, BilledTokens, AnyToken, AddTokens, AddCounts;
    if es != [] { TallyCounts(es[1..]); }
  }

  // ---------- prices ----------

  /** What one dimension adds to the amount. */
  function DimensionAmount(p: Pricing, model: string, channel: Channel, direction: Direction, amount: int): real {
    match CostDimension(p, model, channel, direction, amount) case None => 0.0 case Some(cost) => cost
  }

  datatype Dimension = Dimension(channel: Channel, direction: Direction, amount: int)

  /** The nine token dimensions of an image bucket, in the order they are charged. */
  function Dimensions(t: ImageTokens): seq<Dimension> {
    [Dimension(TextTokens, Input, t.inputText), Dimension(TextTokens, CachedInput, t.cachedText),
     Dimension(PictureTokens, Input, t.inputImage), Dimension(PictureTokens, CachedInput, t.cachedImage),
     Dimension(MixedTokens, Input, t.inputMixed), Dimension(MixedTokens, CachedInput, t.cachedMixed),
     Dimension(TextTokens, Output, t.outputText), Dimension(PictureTokens, Output, t.outputImage),
     Dimension(MixedTokens, Output, t.outputMixed)]
  }

  function DimensionCost(p: Pricing, model: string): Dimension -> real {
    (d: Dimension) => DimensionAmount(p, model, d.channel, d.direction, d.amount)
  }

  function TokensAmount(p: Pricing, model: string, t: ImageTokens): real { Sum(Dimensions(t), DimensionCost(p, model)) }

  function ImagesAmount(p: Pricing, model: string, size: string, inputCount: int, outputCount: int): real {
    CostImages(p, model, inputCount, outputCount, size).0
  }

  /** What a bucket or a single image adds to the amount of a report. */
  function TallyAmount(p: Pricing, model: string, size: string, t: ImageTally): real {
    if !HasMultimodal(p, model) then 0.0
    else
      (if HasImageTokenPricing(p, model) then TokensAmount(p, model, t.tokens) else 0.0)
      + (if HasPerImagePricing(p, model) then ImagesAmount(p, model, size, t.inputCount, t.outputCount) else 0.0)
  }

  function ImageRowCost(p: Pricing): ImageRow -> real {
    (row: ImageRow) => TallyAmount(p, row.key.model, row.key.size, row.tally)
  }

  function EntryCost(p: Pricing): Entry -> real {
    (e: Entry) => TallyAmount(p, e.r.model, e.image.size, ImageTallyOf(e))
  }

  predicate TokensOk(t: ImageTokens) {
    t.inputText >= 0 && t.cachedText >= 0 && t.inputImage >= 0 && t.cachedImage >= 0 && t.inputMixed >= 0
    && t.cachedMixed >= 0 && t.outputText >= 0 && t.outputImage >= 0 && t.outputMixed >= 0
  }

  predicate ImageTallyOk(t: ImageTally) { TokensOk(t.tokens) && t.inputCount >= 0 && t.outputCount >= 0 }

  lemma DimensionAdds(p: Pricing, model: string, channel: Channel, direction: Direction, a: int, b: int)
    requires a >= 0 && b >= 0
    ensures DimensionAmount(p, model, channel, direction, a + b)
         == DimensionAmount(p, model, channel, direction, a) + DimensionAmount(p, model, channel, direction, b)
  {
    hide Charge, LookupMultimodal, TokenRate;
    match LookupMultimodal(p, model)
    case None =>
    case Some(mp) => ChargeAdds(a, b, TokenRate(mp, channel, direction));
  }

  /** `cs` has the amounts of `ds` and `es` added one by one. */
  predicate AddedUp(ds: seq<Dimension>, es: seq<Dimension>, cs: seq<Dimension>) {
    |ds| == |es| == |cs| && forall i | 0 <= i < |ds| ::
      && ds[i].amount >= 0 && es[i].amount >= 0 && cs[i].amount == ds[i].amount + es[i].amount
      && ds[i].channel == es[i].channel == cs[i].channel && ds[i].direction == es[i].direction == cs[i].direction
  }

  lemma {:induction false} DimensionsAdd(p: Pricing, model: string, ds: seq<Dimension>, es: seq<Dimension>, cs: seq<Dimension>)
    requires AddedUp(ds, es, cs)
    ensures Sum(cs, DimensionCost(p, model)) == Sum(ds, DimensionCost(p, model)) + Sum(es, DimensionCost(p, model))
  {
    hide DimensionAmount;
    if ds != [] {
      DimensionAdds(p, model, ds[0].channel, ds[0].direction, ds[0].amount, es[0].amount);
      DimensionsAdd(p, model, ds[1..], es[1..], cs[1..]);
    }
  }

  lemma TokensAdd(p: Pricing, model: string, a: ImageTokens, b: ImageTokens)
    requires TokensOk(a) && TokensOk(b)
    ensures TokensAmount(p, model, AddTokens(a, b)) == TokensAmount(p, model, a) + TokensAmount(p, model, b)
  {
    hide DimensionCost, Sum;
    DimensionsAdd(p, model, Dimensions(a), Dimensions(b), Dimensions(AddTokens(a, b)));
  }

  lemma TimesAdds(a: int, b: int, rate: real)
    ensures (a + b) as real * rate == a as real * rate + b as real * rate
  {
    assert (a + b) as real == a as real + b as real;
  }

  /** The input side and the output side of a per-image charge. */
  function InputImages(mp: ModalityPrice, n: int): real {
    if n > 0 && PerImageInputConfigured(mp) then n as real * mp.perImageInput else 0.0
  }

  function OutputImages(mp: ModalityPrice, key: SizeKey, n: int): real {
    if n > 0 && mp.perImageOutput.Some? && key in mp.perImageOutput.value then n as real * mp.perImageOutput.value[key] else 0.0
  }

  lemma ImagesBySide(p: Pricing, model: string, size: string, a: int, b: int)
    ensures ImagesAmount(p, model, size, a, b) == match LookupMultimodal(p, model)
      case None => 0.0
      case Some(mp) => InputImages(mp.image, a) + OutputImages(mp.image, NormalizeImageSize(size).0, b)
  {
    hide LookupMultimodal, NormalizeImageSize;
  }

  lemma InputImagesAdd(mp: ModalityPrice, a: int, b: int)
    requires a >= 0 && b >= 0
    ensures InputImages(mp, a + b) == InputImages(mp, a) + InputImages(mp, b)
  {
    TimesAdds(a, b, mp.perImageInput);
  }

  lemma OutputImagesAdd(mp: ModalityPrice, key: SizeKey, a: int, b: int)
    requires a >= 0 && b >= 0
    ensures OutputImages(mp, key, a + b) == OutputImages(mp, key, a) + OutputImages(mp, key, b)
  {
    if mp.perImageOutput.Some? && key in mp.perImageOutput.value { TimesAdds(a, b, mp.perImageOutput.value[key]); }
  }

  lemma ImagesAdd(p: Pricing, model: string, size: string, a: int, b: int, c: int, d: int)
    requires a >= 0 && b >= 0 && c >= 0 && d >= 0
    ensures ImagesAmount(p, model, size, a + c, b + d) == ImagesAmount(p, model, size, a, b) + ImagesAmount(p, model, size, c, d)
  {
    hide ImagesAmount, LookupMultimodal, NormalizeImageSize, InputImages, OutputImages;
    ImagesBySide(p, model, size, a, b);
    ImagesBySide(p, model, size, c, d);
    ImagesBySide(p, model, size, a + c, b + d);
    match LookupMultimodal(p, model)
    case None =>
    case Some(mp) =>
      InputImagesAdd(mp.image, a, c);
      OutputImagesAdd(mp.image, NormalizeImageSize(size).0, b, d);
  }

  // ---------- how the price moves with the images ----------

  /** Cached input is no dearer than regular input, in the text and the image price. */
  predicate CacheNoDearer(mp: MultimodalPrice) {
    mp.text.cachedInput <= mp.text.input && mp.image.cachedInput <= mp.image.input
  }

  /** What the input of one channel adds, regular and cached. */
  function ChannelAmount(p: Pricing, model: string, channel: Channel, split: (int, int)): real {
    DimensionAmount(p, model, channel, Input, split.0) + DimensionAmount(p, model, channel, CachedInput, split.1)
  }

  lemma DimensionByRate(p: Pricing, model: string, mp: MultimodalPrice, channel: Channel, direction: Direction, n: int)
    requires LookupMultimodal(p, model) == Some(mp) && n >= 0
    ensures DimensionAmount(p, model, channel, direction, n)
         == Charge(n, if TokenRate(mp, channel, direction) > 0.0 then TokenRate(mp, channel, direction) else 0.0)
  {
    hide LookupMultimodal, TokenRate;
  }

  lemma ChannelCachingNeverCostsMore(p: Pricing, model: string, mp: MultimodalPrice, channel: Channel,
                                     input: int, less: int, more: int)
    requires LookupMultimodal(p, model) == Some(mp) && CacheNoDearer(mp)
    requires less == more || (input > 0 && less <= more)
    ensures ChannelAmount(p, model, channel, SplitCached(input, more)) <= ChannelAmount(p, model, channel, SplitCached(input, less))
  {
    if less != more {
      var (regular, c) := SplitCached(input, less);
      var (regular', c') := SplitCached(input, more);
      assert 0 <= c <= c' && regular - regular' == c' - c && regular' >= 0;
      var high := if TokenRate(mp, channel, Input) > 0.0 then TokenRate(mp, channel, Input) else 0.0;
      var low := if TokenRate(mp, channel, CachedInput) > 0.0 then TokenRate(mp, channel, CachedInput) else 0.0;
      assert low <= high;
      hide Charge, LookupMultimodal, TokenRate, SplitCached, DimensionAmount;
      DimensionByRate(p, model, mp, channel, Input, regular);
      DimensionByRate(p, model, mp, channel, Input, regular');
      DimensionByRate(p, model, mp, channel, CachedInput, c);
      DimensionByRate(p, model, mp, channel, CachedInput, c');
      ChargeAdds(c, c' - c, low);
      ChargeAdds(regular', c' - c, high);
      ChargeByRate(c' - c, low, high);
    }
  }

  /** More input makes a channel cheaper exactly when there was none and less is billed as cached, at a price. */
  lemma MoreChannelInputCostsLessExactly(p: Pricing, model: string, mp: MultimodalPrice, channel: Channel,
                                         less: int, more: int, cached: int)
    requires LookupMultimodal(p, model) == Some(mp) && less <= more
    ensures ChannelAmount(p, model, channel, SplitCached(less, cached)) > ChannelAmount(p, model, channel, SplitCached(more, cached))
       <==> less <= 0 < more < cached && TokenRate(mp, channel, CachedInput) > 0.0
  {
    var (regular, c) := SplitCached(less, cached);
    var (regular', c') := SplitCached(more, cached);
    var high := if TokenRate(mp, channel, Input) > 0.0 then TokenRate(mp, channel, Input) else 0.0;
    var low := if TokenRate(mp, channel, CachedInput) > 0.0 then TokenRate(mp, channel, CachedInput) else 0.0;
    assert 0 <= regular <= regular' && 0 <= c && 0 <= c';
    assert if less <= 0 < more < cached then regular' == 0 && c' < c else c <= c';
    hide Charge, LookupMultimodal, TokenRate, SplitCached, DimensionAmount;
    DimensionByRate(p, model, mp, channel, Input, regular);
    DimensionByRate(p, model, mp, channel, Input, regular');
    DimensionByRate(p, model, mp, channel, CachedInput, c);
    DimensionByRate(p, model, mp, channel, CachedInput, c');
    ChargeGrows(regular, regular', high);
    if c' < c { ChargeGrows(c', c, low); } else { ChargeGrows(c, c', low); }
    FreeCharge(c);
    FreeCharge(c');
  }

  /** The reported dimensions differ in the cached input only, and only where there is input. */
  predicate MoreCached(less: ImageTokens, more: ImageTokens) {
    && more == less.(cachedText := more.cachedText, cachedImage := more.cachedImage, cachedMixed := more.cachedMixed)
    && (less.cachedText == more.cachedText || (less.inputText > 0 && less.cachedText <= more.cachedText))
    && (less.cachedImage == more.cachedImage || (less.inputImage > 0 && less.cachedImage <= more.cachedImage))
    && (less.cachedMixed == more.cachedMixed || (less.inputMixed > 0 && less.cachedMixed <= more.cachedMixed))
  }

  lemma AmountByChannels(p: Pricing, model: string, d: ImageTokens)
    ensures TokensAmount(p, model, BilledTokens(d))
         == ChannelAmount(p, model, TextTokens, SplitCached(d.inputText, d.cachedText))
          + ChannelAmount(p, model, PictureTokens, SplitCached(d.inputImage, d.cachedImage))
          + ChannelAmount(p, model, MixedTokens, SplitCached(d.inputMixed, d.cachedMixed))
          + DimensionAmount(p, model, TextTokens, Output, Max(d.outputText, 0))
          + DimensionAmount(p, model, PictureTokens, Output, Max(d.outputImage, 0))
          + DimensionAmount(p, model, MixedTokens, Output, Max(d.outputMixed, 0))
  {
    hide DimensionAmount, SplitCached, Sum;
    var ds := Dimensions(BilledTokens(d));
    var f := DimensionCost(p, model);
    assert ds == [ds[0], ds[1], ds[2]] + ([ds[3], ds[4], ds[5]] + [ds[6], ds[7], ds[8]]);
    SumAppend([ds[0], ds[1], ds[2]], [ds[3], ds[4], ds[5]] + [ds[6], ds[7], ds[8]], f);
    SumAppend([ds[3], ds[4], ds[5]], [ds[6], ds[7], ds[8]], f);
    SumOfThree(ds[0], ds[1], ds[2], f);
    SumOfThree(ds[3], ds[4], ds[5], f);
    SumOfThree(ds[6], ds[7], ds[8], f);
  }

  lemma SumOfThree<T>(a: T, b: T, c: T, f: T -> real)
    ensures Sum([a, b, c], f) == f(a) + f(b) + f(c)
  {
    SumAppend([a], [b, c], f);
    SumAppend([b], [c], f);
    assert [a] + [b, c] == [a, b, c] && [b] + [c] == [b, c];
  }

  /** Reporting more of the input of an image request as cached never raises what its tokens cost. */
  lemma ImageCachingNeverCostsMore(p: Pricing, model: string, mp: MultimodalPrice, less: ImageTokens, more: ImageTokens)
    requires LookupMultimodal(p, model) == Some(mp) && CacheNoDearer(mp) && MoreCached(less, more)
    ensures TokensAmount(p, model, BilledTokens(more)) <= TokensAmount(p, model, BilledTokens(less))
  {
    hide ChannelAmount, TokensAmount, BilledTokens, DimensionAmount, LookupMultimodal, SplitCached, CacheNoDearer;
    AmountByChannels(p, model, less);
    AmountByChannels(p, model, more);
    ChannelCachingNeverCostsMore(p, model, mp, TextTokens, less.inputText, less.cachedText, more.cachedText);
    ChannelCachingNeverCostsMore(p, model, mp, PictureTokens, less.inputImage, less.cachedImage, more.cachedImage);
    ChannelCachingNeverCostsMore(p, model, mp, MixedTokens, less.inputMixed, less.cachedMixed, more.cachedMixed);
  }

  lemma TallyAdds(p: Pricing, model: string, size: string, a: ImageTally, b: ImageTally)
    requires ImageTallyOk(a) && ImageTallyOk(b)
    ensures TallyAmount(p, model, size, AddImages(a, b)) == TallyAmount(p, model, size, a) + TallyAmount(p, model, size, b)
  {
    hide TokensAmount, ImagesAmount, HasMultimodal, HasImageTokenPricing, HasPerImagePricing;
    TokensAdd(p, model, a.tokens, b.tokens);
    ImagesAdd(p, model, size, a.inputCount, a.outputCount, b.inputCount, b.outputCount);
  }

  lemma EntryOk(e: Entry)
    ensures ImageTallyOk(ImageTallyOf(e))
  {
    hide Classify, CountOf;
  }

  /** The images of one bucket, priced together or one by one. */
  lemma {:induction false} BucketOfImages(p: Pricing, k: ImageKey, es: seq<Entry>)
    requires forall e | e in es :: e.r.model == k.model && e.image.size == k.size
    ensures ImageTallyOk(ImageTotal(es))
    ensures TallyAmount(p, k.model, k.size, ImageTotal(es)) == Sum(es, EntryCost(p))
  {
    hide TallyAmount, ImageTallyOf;
    if es == [] {
      NoImagesNoCost(p, k.model, k.size);
    } else {
      BucketOfImages(p, k, es[1..]);
      EntryOk(es[0]);
      TallyAdds(p, k.model, k.size, ImageTallyOf(es[0]), ImageTotal(es[1..]));
    }
  }

  lemma NoImagesNoCost(p: Pricing, model: string, size: string)
    ensures TallyAmount(p, model, size, NO_IMAGES) == 0.0
  {
    hide LookupMultimodal, NormalizeImageSize, HasMultimodal, HasImageTokenPricing, HasPerImagePricing;
    SumZero(Dimensions(NO_TOKENS), DimensionCost(p, model));
  }

  lemma {:induction false} ImageRowsByParts(p: Pricing, es: seq<Entry>, f: Filter, keys: seq<ImageKey>)
    ensures Sum(ImageRows(es, f, keys), ImageRowCost(p)) == SumOfParts(es, ImageKeyOf(f), keys, EntryCost(p))
  {
    hide TallyAmount, ImageTotal, Part, EntryCost;
    if keys != [] {
      var part := Part(es, ImageKeyOf(f), keys[0]);
      PartMembers(es, ImageKeyOf(f), keys[0]);
      BucketOfImages(p, keys[0], part);
      ImageRowsByParts(p, es, f, keys[1..]);
      assert ImageRows(es, f, keys)[1..] == ImageRows(es, f, keys[1..]);
    }
  }

  /** The images of a request priced by themselves. */
  function RequestImageCost(p: Pricing): Request -> real { (r: Request) => Sum(EntriesOf(r, r.images), EntryCost(p)) }

  lemma {:induction false} EntriesByRequest(p: Pricing, rs: seq<Request>)
    ensures Sum(Entries(rs), EntryCost(p)) == Sum(rs, RequestImageCost(p))
  {
    hide EntryCost, EntriesOf;
    if rs != [] {
      SumAppend(EntriesOf(rs[0], rs[0].images), Entries(rs[1..]), EntryCost(p));
      EntriesByRequest(p, rs[1..]);
    }
  }

  /** Bucketed image pricing is the sum over the requests, without exception. */
  lemma ImageBucketsExactly(p: Pricing, rs: seq<Request>, f: Filter, keys: seq<ImageKey>)
    requires Lists(keys, Entries(rs), ImageKeyOf(f))
    ensures Sum(ImageRows(Entries(rs), f, keys), ImageRowCost(p)) == Sum(rs, RequestImageCost(p))
  {
    ImageRowsByParts(p, Entries(rs), f, keys);
    SumByParts(Entries(rs), ImageKeyOf(f), keys, EntryCost(p), (e: Entry) => 0);
    EntriesByRequest(p, rs);
  }

  // ---------- text and images together ----------

  /** One request by itself: its images when they are billed as such, otherwise its text in its own tier. */
  function RequestCost(p: Pricing): Request -> real {
    (r: Request) => if r.images != [] && HasMultimodal(p, r.model) then RequestImageCost(p)(r) else TextCost(p)(r)
  }

  lemma {:induction false} OneOrTheOther(p: Pricing, rs: seq<Request>)
    ensures Sum(rs, RequestCost(p)) == Sum(rs, TextCost(p)) + Sum(rs, RequestImageCost(p))
  {
    hide EntryCost, OwnCost;
    if rs != [] {
      OneOrTheOther(p, rs[1..]);
      if !HasMultimodal(p, rs[0].model) { TextOnly(p, rs[0], rs[0].images); }
    }
  }

  lemma {:induction false} TextOnly(p: Pricing, r: Request, images: seq<Image>)
    requires !HasMultimodal(p, r.model)
    ensures Sum(EntriesOf(r, images), EntryCost(p)) == 0.0
  {
    if images != [] {
      TextOnly(p, r, images[1..]);
      assert EntriesOf(r, images)[1..] == EntriesOf(r, images[1..]);
    }
  }
}
