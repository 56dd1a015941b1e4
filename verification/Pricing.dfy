/** Prices and what they make of token and image counts. */
module Pricing {
  import opened Bytes

  // ---------- text prices ----------

  datatype LongContext = LongContext(threshold: int, input: real, cachedInput: real, output: real,
                                     reasoning: real, cacheCreation: real)

  datatype ModelPrice = ModelPrice(input: real, cachedInput: real, output: real, reasoning: real,
                                   cacheCreation: real, long: Option<LongContext>)

  datatype ModalityPrice = ModalityPrice(input: real, cachedInput: real, output: real, reasoning: real,
                                         perImageInput: real, hasPerImageInput: bool,
                                         perImageOutput: Option<map<SizeKey, real>>, perImageOutputKeySet: bool)

  datatype MultimodalPrice = MultimodalPrice(text: ModalityPrice, image: ModalityPrice)

  datatype Pricing = Pricing(models: map<string, ModelPrice>, multimodal: map<string, MultimodalPrice>,
                             aliasIndex: map<string, string>, multimodalAliasIndex: map<string, string>)

  /** `tokens` at a rate per million. */
  function Charge(tokens: int, rate: real): real { tokens as real / 1000000.0 * rate }

  lemma ChargeAdds(a: int, b: int, rate: real)
    ensures Charge(a + b, rate) == Charge(a, rate) + Charge(b, rate)
  {
    assert (a + b) as real / 1000000.0 == a as real / 1000000.0 + b as real / 1000000.0;
  }

  lemma ChargeZero(rate: real)
    ensures Charge(0, rate) == 0.0
  {}

  lemma FreeCharge(tokens: int)
    ensures Charge(tokens, 0.0) == 0.0
  {}

  lemma ChargeGrows(a: int, b: int, rate: real)
    requires a <= b && rate >= 0.0
    ensures Charge(a, rate) <= Charge(b, rate)
    ensures a < b && rate > 0.0 ==> Charge(a, rate) < Charge(b, rate)
  {
    ChargeAdds(a, b - a, rate);
    assert Charge(b - a, rate) == (b - a) as real / 1000000.0 * rate;
    if a < b && rate > 0.0 { assert (b - a) as real / 1000000.0 > 0.0; }
  }

  function ResolveTextTier(mp: ModelPrice, requestInput: int): ModelPrice {
    if mp.long.None? || requestInput < mp.long.value.threshold then mp.(long := None)
    else
      var lc := mp.long.value;
      ModelPrice(lc.input, lc.cachedInput, lc.output, lc.reasoning, lc.cacheCreation, None)
  }

  predicate InLongTier(mp: ModelPrice, requestInput: int) {
    mp.long.Some? && requestInput >= mp.long.value.threshold
  }

  function Rates(mp: ModelPrice): (real, real, real, real, real) {
    (mp.input, mp.cachedInput, mp.output, mp.reasoning, mp.cacheCreation)
  }

  /** The tiers do not mix: below the threshold the long rates do not show, and from it on the short ones do not. */
  lemma TiersDoNotMix(a: ModelPrice, b: ModelPrice, requestInput: int)
    requires InLongTier(a, requestInput) <==> InLongTier(b, requestInput)
    requires !InLongTier(a, requestInput) ==> Rates(a) == Rates(b)
    requires InLongTier(a, requestInput) ==> a.long.value.(threshold := 0) == b.long.value.(threshold := 0)
    ensures ResolveTextTier(a, requestInput) == ResolveTextTier(b, requestInput)
  {}

  /** Regular, cached and cache-creation input. */
  function InputBreakdown(input: int, cached: int, creation: int): (int, int, int) {
    var cached := Max(cached, 0);
    var creation := Max(creation, 0);
    if input <= 0 then (0, cached, creation)
    else
      var creation := Min(creation, input);
      var remaining := input - creation;
      var cached := Min(cached, remaining);
      (remaining - cached, cached, creation)
  }

  /**
   Whatever is reported, the parts are non-negative and of a positive input make up exactly it. Cache creation is
   served first, then cached input; without an input both are billed as reported.
   */
  lemma BreakdownConserves(input: int, cached: int, creation: int)
    ensures var (regular, c, cr) := InputBreakdown(input, cached, creation);
      && regular >= 0 && c >= 0 && cr >= 0
      && (input > 0 ==> regular + c + cr == input && c <= Max(cached, 0) && cr == Min(Max(creation, 0), input))
      && (regular > 0 ==> c == Max(cached, 0))
      && (input <= 0 ==> regular == 0 && c == Max(cached, 0) && cr == Max(creation, 0))
      && (input > 0 && cached >= 0 && creation >= 0 && cached + creation <= input ==> c == cached && cr == creation)
  {}

  function ComputeCost(mp: ModelPrice, input: int, output: int, reasoning: int, cached: int, creation: int): real {
    var (regular, cached, creation) := InputBreakdown(input, cached, creation);
    (if cached > 0 then Charge(cached, mp.cachedInput) else 0.0)
    + (if regular > 0 then Charge(regular, mp.input) else 0.0)
    + (if creation > 0 && mp.cacheCreation > 0.0 then Charge(creation, mp.cacheCreation)
       else if creation > 0 then Charge(creation, mp.input) else 0.0)
    + (if reasoning > 0 && mp.reasoning > 0.0 then
         (if output - reasoning > 0 then Charge(output - reasoning, mp.output) else 0.0)
         + Charge(reasoning, mp.reasoning)
       else Charge(output, mp.output))
  }

  // ---------- how the price moves with the request ----------

  /** Without a rate of its own cache creation is billed as input, and reasoning as output. */
  function CreationRate(mp: ModelPrice): real { if mp.cacheCreation > 0.0 then mp.cacheCreation else mp.input }

  function ReasoningRate(mp: ModelPrice): real { if mp.reasoning > 0.0 then mp.reasoning else mp.output }

  function InputCost(mp: ModelPrice, input: int, cached: int, creation: int): real {
    var (regular, c, cr) := InputBreakdown(input, cached, creation);
    Charge(c, mp.cachedInput) + Charge(regular, mp.input) + Charge(cr, CreationRate(mp))
  }

  function OutputCost(mp: ModelPrice, output: int, reasoning: int): real { ComputeCost(mp, 0, output, reasoning, 0, 0) }

  lemma CostSeparates(mp: ModelPrice, input: int, output: int, reasoning: int, cached: int, creation: int)
    ensures ComputeCost(mp, input, output, reasoning, cached, creation)
         == InputCost(mp, input, cached, creation) + OutputCost(mp, output, reasoning)
  {
    hide Charge, InputBreakdown;
    BreakdownConserves(input, cached, creation);
    assert InputBreakdown(0, 0, 0) == (0, 0, 0) by { BreakdownConserves(0, 0, 0); }
    ChargeZero(mp.cachedInput);
    ChargeZero(mp.input);
    ChargeZero(CreationRate(mp));
  }

  lemma OutputByParts(mp: ModelPrice, output: int, reasoning: int)
    requires 0 <= reasoning <= output
    ensures OutputCost(mp, output, reasoning) == Charge(output - reasoning, mp.output) + Charge(reasoning, ReasoningRate(mp))
  {
    hide Charge;
    ChargeAdds(output - reasoning, reasoning, mp.output);
    ChargeZero(mp.output);
    ChargeZero(mp.reasoning);
  }

  lemma ChargeByRate(tokens: int, low: real, high: real)
    requires tokens >= 0 && low <= high
    ensures Charge(tokens, low) <= Charge(tokens, high)
  {
    assert Charge(tokens, high) - Charge(tokens, low) == tokens as real / 1000000.0 * (high - low);
  }

  /** No rate of `b` is below that of `a`, the fallbacks taken. */
  predicate NoCheaper(a: ModelPrice, b: ModelPrice) {
    && a.input <= b.input && a.cachedInput <= b.cachedInput && a.output <= b.output
    && CreationRate(a) <= CreationRate(b) && ReasoningRate(a) <= ReasoningRate(b)
  }

  lemma DearerRatesCostMore(a: ModelPrice, b: ModelPrice, input: int, output: int, reasoning: int, cached: int, creation: int)
    requires NoCheaper(a, b) && 0 <= reasoning <= output
    ensures ComputeCost(a, input, output, reasoning, cached, creation) <= ComputeCost(b, input, output, reasoning, cached, creation)
  {
    var (regular, c, cr) := InputBreakdown(input, cached, creation);
    BreakdownConserves(input, cached, creation);
    hide ComputeCost, Charge, InputBreakdown, OutputCost, CreationRate, ReasoningRate;
    CostSeparates(a, input, output, reasoning, cached, creation);
    CostSeparates(b, input, output, reasoning, cached, creation);
    OutputByParts(a, output, reasoning);
    OutputByParts(b, output, reasoning);
    ChargeByRate(c, a.cachedInput, b.cachedInput);
    ChargeByRate(regular, a.input, b.input);
    ChargeByRate(cr, CreationRate(a), CreationRate(b));
    ChargeByRate(output - reasoning, a.output, b.output);
    ChargeByRate(reasoning, ReasoningRate(a), ReasoningRate(b));
  }

  /** With a long-context tier no cheaper than the base one, a longer request is never cheaper for the same usage. */
  lemma LongerIsNeverCheaper(p: Pricing, model: string, shorter: int, longer: int,
                             input: int, output: int, reasoning: int, cached: int, creation: int)
    requires shorter <= longer && 0 <= reasoning <= output
    requires forall mp | Lookup(p, model) == Some(mp) && mp.long.Some? ::
               NoCheaper(mp, ResolveTextTier(mp, mp.long.value.threshold))
    ensures var low := CostText(p, model, shorter, input, output, reasoning, cached, creation);
      var high := CostText(p, model, longer, input, output, reasoning, cached, creation);
      (low.Some? <==> high.Some?) && (low.Some? ==> low.value <= high.value)
  {
    hide ComputeCost, Lookup;
    match Lookup(p, model)
    case None =>
    case Some(mp) =>
      if mp.long.Some? && shorter < mp.long.value.threshold <= longer {
        DearerRatesCostMore(ResolveTextTier(mp, shorter), ResolveTextTier(mp, longer), input, output, reasoning, cached, creation);
      }
  }

  /** With cached input no dearer than regular input, reporting more of an input as cached never raises the price. */
  lemma CachingNeverCostsMore(mp: ModelPrice, input: int, output: int, reasoning: int, less: int, more: int, creation: int)
    requires mp.cachedInput <= mp.input && input > 0 && less <= more
    ensures ComputeCost(mp, input, output, reasoning, more, creation) <= ComputeCost(mp, input, output, reasoning, less, creation)
  {
    var (regular, c, cr) := InputBreakdown(input, less, creation);
    var (regular', c', cr') := InputBreakdown(input, more, creation);
    assert cr == cr' && c <= c' && regular - regular' == c' - c;
    hide ComputeCost, Charge, InputBreakdown, OutputCost;
    CostSeparates(mp, input, output, reasoning, less, creation);
    CostSeparates(mp, input, output, reasoning, more, creation);
    ChargeAdds(c, c' - c, mp.cachedInput);
    ChargeAdds(regular', c' - c, mp.input);
    ChargeByRate(c' - c, mp.cachedInput, mp.input);
  }

  predicate InputRatesOk(mp: ModelPrice) { mp.input >= 0.0 && mp.cachedInput >= 0.0 }

  /** More input never costs less, as long as there is some input to begin with or enough to hold the cached tokens. */
  lemma MoreInputNeverCostsLess(mp: ModelPrice, less: int, more: int, output: int, reasoning: int, cached: int, creation: int)
    requires InputRatesOk(mp) && less <= more
    requires 0 < less || more <= 0 || Max(cached, 0) + Max(creation, 0) <= more
    ensures ComputeCost(mp, less, output, reasoning, cached, creation) <= ComputeCost(mp, more, output, reasoning, cached, creation)
  {
    var (regular, c, cr) := InputBreakdown(less, cached, creation);
    var (regular', c', cr') := InputBreakdown(more, cached, creation);
    assert regular <= regular' && c <= c' && cr <= cr';
    hide ComputeCost, Charge, InputBreakdown, OutputCost;
    CostSeparates(mp, less, output, reasoning, cached, creation);
    CostSeparates(mp, more, output, reasoning, cached, creation);
    ChargeGrows(regular, regular', mp.input);
    ChargeGrows(c, c', mp.cachedInput);
    ChargeGrows(cr, cr', CreationRate(mp));
  }

  /** Otherwise a request without input costs more, by exactly the cached and creation tokens that the input cuts off. */
  lemma ZeroInputBillsTheRest(mp: ModelPrice, none: int, some: int, output: int, reasoning: int, cached: int, creation: int)
    requires none <= 0 < some < Max(cached, 0) + Max(creation, 0)
    ensures var (regular, c, cr) := InputBreakdown(some, cached, creation);
      && regular == 0 && (Max(cached, 0) - c) + (Max(creation, 0) - cr) == Max(cached, 0) + Max(creation, 0) - some
      && ComputeCost(mp, none, output, reasoning, cached, creation)
      == ComputeCost(mp, some, output, reasoning, cached, creation)
         + Charge(Max(cached, 0) - c, mp.cachedInput) + Charge(Max(creation, 0) - cr, CreationRate(mp))
  {
    var (regular, c, cr) := InputBreakdown(some, cached, creation);
    assert regular == 0 && c + cr == some;
    assert InputBreakdown(none, cached, creation) == (0, Max(cached, 0), Max(creation, 0));
    hide ComputeCost, Charge, InputBreakdown, OutputCost;
    CostSeparates(mp, none, output, reasoning, cached, creation);
    CostSeparates(mp, some, output, reasoning, cached, creation);
    ChargeAdds(c, Max(cached, 0) - c, mp.cachedInput);
    ChargeAdds(cr, Max(creation, 0) - cr, CreationRate(mp));
  }

  /** An input of `some` tokens cuts off cached or creation tokens that have a price. */
  predicate CutsOff(mp: ModelPrice, some: int, cached: int, creation: int) {
    (mp.cachedInput > 0.0 && Max(cached, 0) > some - Min(Max(creation, 0), some))
    || (CreationRate(mp) > 0.0 && creation > some)
  }

  /** More input makes a request cheaper exactly when there was none and the input cuts something off. */
  lemma MoreInputCostsLessExactly(mp: ModelPrice, less: int, more: int, output: int, reasoning: int, cached: int, creation: int)
    requires InputRatesOk(mp) && less <= more
    ensures ComputeCost(mp, less, output, reasoning, cached, creation) > ComputeCost(mp, more, output, reasoning, cached, creation)
       <==> less <= 0 < more && CutsOff(mp, more, cached, creation)
  {
    if 0 < less || more <= 0 || Max(cached, 0) + Max(creation, 0) <= more {
      hide ComputeCost;
      MoreInputNeverCostsLess(mp, less, more, output, reasoning, cached, creation);
    } else {
      var (_, c, cr) := InputBreakdown(more, cached, creation);
      assert c == Min(Max(cached, 0), more - cr) && cr == Min(Max(creation, 0), more);
      hide ComputeCost, Charge, InputBreakdown;
      ZeroInputBillsTheRest(mp, less, more, output, reasoning, cached, creation);
      assert CreationRate(mp) >= 0.0;
      ChargeZero(mp.cachedInput);
      ChargeZero(CreationRate(mp));
      ChargeGrows(0, Max(cached, 0) - c, mp.cachedInput);
      ChargeGrows(0, Max(creation, 0) - cr, CreationRate(mp));
      if mp.cachedInput == 0.0 { FreeCharge(Max(cached, 0) - c); }
      if CreationRate(mp) == 0.0 { FreeCharge(Max(creation, 0) - cr); }
    }
  }

  /** A million cached tokens cost 1 without input, and a millionth of it with an input of one token. */
  lemma OneInputTokenMakesItCheap()
    ensures var mp := ModelPrice(1.0, 1.0, 1.0, 0.0, 0.0, None);
      ComputeCost(mp, 0, 0, 0, 1000000, 0) == 1.0 && ComputeCost(mp, 1, 0, 0, 1000000, 0) == 0.000001
  {}

  // ---------- which rate prices what ----------

  /** The five rates of a tier. */
  datatype Rate = InputRate | CachedRate | OutputRate | ThinkingRate | WriteRate

  /** A rate as it is configured, in the base tier or the long-context tier. */
  function RateOf(mp: ModelPrice, long: bool, rate: Rate): real
    requires long ==> mp.long.Some?
  {
    match rate
    case InputRate => if long then mp.long.value.input else mp.input
    case CachedRate => if long then mp.long.value.cachedInput else mp.cachedInput
    case OutputRate => if long then mp.long.value.output else mp.output
    case ThinkingRate => if long then mp.long.value.reasoning else mp.reasoning
    case WriteRate => if long then mp.long.value.cacheCreation else mp.cacheCreation
  }

  /** The prices agree in everything but this rate of this tier. */
  ghost predicate OnlyDiffersIn(a: ModelPrice, b: ModelPrice, long: bool, rate: Rate) {
    && (a.long.Some? <==> b.long.Some?) && (long ==> a.long.Some?)
    && (a.long.Some? ==> a.long.value.threshold == b.long.value.threshold)
    && forall other, tier: bool | (tier ==> a.long.Some?) && !(other == rate && tier == long) ::
         RateOf(a, tier, other) == RateOf(b, tier, other)
  }

  datatype TextUsage = TextUsage(input: int, output: int, reasoning: int, cached: int, creation: int)

  /** The tokens billed at a rate: without a rate of their own, cache writes go with the input and reasoning with the output. */
  function BilledAt(mp: ModelPrice, long: bool, rate: Rate, u: TextUsage): int
    requires long ==> mp.long.Some?
  {
    var (regular, cached, creation) := InputBreakdown(u.input, u.cached, u.creation);
    match rate
    case InputRate => regular + if RateOf(mp, long, WriteRate) > 0.0 then 0 else creation
    case CachedRate => cached
    case WriteRate => creation
    case OutputRate =>
      if u.reasoning > 0 && RateOf(mp, long, ThinkingRate) > 0.0 then Max(u.output - u.reasoning, 0) else u.output
    case ThinkingRate => Max(u.reasoning, 0)
  }

  function CostOf(mp: ModelPrice, requestInput: int, u: TextUsage): real {
    ComputeCost(ResolveTextTier(mp, requestInput), u.input, u.output, u.reasoning, u.cached, u.creation)
  }

  /** A cost is that of the tokens of each rate, each at the rate of the request's tier. */
  lemma CostByRates(mp: ModelPrice, requestInput: int, u: TextUsage)
    ensures var long := InLongTier(mp, requestInput);
      CostOf(mp, requestInput, u)
      == Charge(BilledAt(mp, long, InputRate, u), RateOf(mp, long, InputRate))
         + Charge(BilledAt(mp, long, CachedRate, u), RateOf(mp, long, CachedRate))
         + Charge(BilledAt(mp, long, OutputRate, u), RateOf(mp, long, OutputRate))
         + (if RateOf(mp, long, ThinkingRate) > 0.0
            then Charge(BilledAt(mp, long, ThinkingRate, u), RateOf(mp, long, ThinkingRate)) else 0.0)
         + (if RateOf(mp, long, WriteRate) > 0.0
            then Charge(BilledAt(mp, long, WriteRate, u), RateOf(mp, long, WriteRate)) else 0.0)
  {
    var (regular, cached, creation) := InputBreakdown(u.input, u.cached, u.creation);
    BreakdownConserves(u.input, u.cached, u.creation);
    var tier := ResolveTextTier(mp, requestInput);
    ChargeAdds(regular, creation, tier.input);
    hide Charge, InputBreakdown;
    ChargeZero(tier.input);
    ChargeZero(tier.cachedInput);
    ChargeZero(tier.output);
    ChargeZero(tier.reasoning);
    ChargeZero(tier.cacheCreation);
  }

  lemma ChargeMoves(tokens: int, low: real, high: real)
    ensures Charge(tokens, high) - Charge(tokens, low) == Charge(tokens, high - low)
  {
    assert Charge(tokens, high) - Charge(tokens, low) == tokens as real / 1000000.0 * (high - low);
  }

  /**
   Two prices that differ in one rate of one tier: a request of the other tier costs the same, and one of that tier
   costs the tokens billed at the rate at the difference; as long as both set it or neither does, if it has a fallback.
   */
  lemma OneRateMatters(a: ModelPrice, b: ModelPrice, long: bool, rate: Rate, requestInput: int, u: TextUsage)
    requires OnlyDiffersIn(a, b, long, rate)
    requires rate == ThinkingRate || rate == WriteRate ==> RateOf(a, long, rate) > 0.0 && RateOf(b, long, rate) > 0.0
    ensures InLongTier(a, requestInput) <==> InLongTier(b, requestInput)
    ensures CostOf(b, requestInput, u) - CostOf(a, requestInput, u)
         == if InLongTier(a, requestInput) == long
            then Charge(BilledAt(a, long, rate, u), RateOf(b, long, rate) - RateOf(a, long, rate)) else 0.0
  {
    var tier := InLongTier(a, requestInput);
    CostByRates(a, requestInput, u);
    CostByRates(b, requestInput, u);
    ChargeMoves(BilledAt(a, tier, rate, u), RateOf(a, tier, rate), RateOf(b, tier, rate));
    hide Charge, InputBreakdown, CostOf;
  }

  /** Setting a rate for cache writes moves them from the input rate to it, and changes nothing else. */
  lemma WriteRateMoves(a: ModelPrice, b: ModelPrice, requestInput: int, u: TextUsage)
    requires var long := InLongTier(a, requestInput);
      OnlyDiffersIn(a, b, long, WriteRate) && RateOf(a, long, WriteRate) <= 0.0 < RateOf(b, long, WriteRate)
    ensures var long := InLongTier(a, requestInput);
      CostOf(b, requestInput, u) - CostOf(a, requestInput, u)
      == Charge(BilledAt(a, long, WriteRate, u), RateOf(b, long, WriteRate) - RateOf(a, long, InputRate))
  {
    var long := InLongTier(a, requestInput);
    var (regular, cached, creation) := InputBreakdown(u.input, u.cached, u.creation);
    CostByRates(a, requestInput, u);
    CostByRates(b, requestInput, u);
    ChargeAdds(regular, creation, RateOf(a, long, InputRate));
    ChargeMoves(creation, RateOf(a, long, InputRate), RateOf(b, long, WriteRate));
    hide Charge, InputBreakdown, CostOf;
  }

  /** Setting a rate for reasoning moves it from the output rate to it, where it was charged as far as it lies within the output. */
  lemma ThinkingRateMoves(a: ModelPrice, b: ModelPrice, requestInput: int, u: TextUsage)
    requires var long := InLongTier(a, requestInput);
      OnlyDiffersIn(a, b, long, ThinkingRate) && RateOf(a, long, ThinkingRate) <= 0.0 < RateOf(b, long, ThinkingRate)
    ensures var long := InLongTier(a, requestInput);
      CostOf(b, requestInput, u) - CostOf(a, requestInput, u)
      == Charge(BilledAt(a, long, ThinkingRate, u), RateOf(b, long, ThinkingRate))
         - Charge(if u.reasoning > 0 then Min(u.output, u.reasoning) else 0, RateOf(a, long, OutputRate))
  {
    var long := InLongTier(a, requestInput);
    CostByRates(a, requestInput, u);
    CostByRates(b, requestInput, u);
    ChargeAdds(Max(u.output - u.reasoning, 0), Min(u.output, u.reasoning), RateOf(a, long, OutputRate));
    ChargeZero(RateOf(a, long, OutputRate));
    ChargeZero(RateOf(b, long, ThinkingRate));
    hide Charge, InputBreakdown, CostOf;
  }

  // ---------- finding the price of a model ----------

  predicate IsDigit(c: char) { '0' <= c <= '9' }

  /** `-YYYY-MM-DD`. */
  predicate IsDateSuffix(s: string) {
    |s| == 11 && s[0] == '-' && forall i | 1 <= i < 11 :: if i == 5 || i == 8 then s[i] == '-' else IsDigit(s[i])
  }

  /** `-YYYYMMDD`. */
  predicate IsCompactDateSuffix(s: string) {
    |s| == 9 && s[0] == '-' && forall i | 1 <= i < 9 :: IsDigit(s[i])
  }

  predicate Digits(s: string, n: nat) { |s| == n && forall c | c in s :: IsDigit(c) }

  /** The two forms of a date: year, month and day apart, or eight digits together. */
  lemma DatesExactly(s: string)
    ensures IsDateSuffix(s) <==> exists y, m, d :: Digits(y, 4) && Digits(m, 2) && Digits(d, 2) && s == "-" + y + "-" + m + "-" + d
    ensures IsCompactDateSuffix(s) <==> exists date :: Digits(date, 8) && s == "-" + date
  {
    if IsDateSuffix(s) {
      assert s == "-" + s[1..5] + "-" + s[6..8] + "-" + s[9..];
      assert Digits(s[1..5], 4) && Digits(s[6..8], 2) && Digits(s[9..], 2);
    }
    if y, m, d :| Digits(y, 4) && Digits(m, 2) && Digits(d, 2) && s == "-" + y + "-" + m + "-" + d {
      forall i | 1 <= i < 11 ensures if i == 5 || i == 8 then s[i] == '-' else IsDigit(s[i]) {
        if i < 5 { assert s[i] == y[i - 1] && y[i - 1] in y; }
        if 5 < i < 8 { assert s[i] == m[i - 6] && m[i - 6] in m; }
        if 8 < i { assert s[i] == d[i - 9] && d[i - 9] in d; }
      }
    }
    if IsCompactDateSuffix(s) {
      assert s == "-" + s[1..] && Digits(s[1..], 8);
    }
    if date :| Digits(date, 8) && s == "-" + date {
      forall i | 1 <= i < 9 ensures IsDigit(s[i]) { assert s[i] == date[i - 1] && date[i - 1] in date; }
    }
  }

  /** The model name without a trailing date. */
  function Canonicalize(model: string): string {
    if |model| > 11 && IsDateSuffix(model[|model| - 11..]) then model[..|model| - 11]
    else if |model| > 9 && IsCompactDateSuffix(model[|model| - 9..]) then model[..|model| - 9]
    else model
  }

  predicate IsDate(suffix: string) { IsDateSuffix(suffix) || IsCompactDateSuffix(suffix) }

  /** A date is removed once, and only a date is. */
  lemma CanonicalizeExactly(model: string)
    ensures Canonicalize(model) != model <==> exists i :: 0 < i < |model| && IsDate(model[i..])
    ensures Canonicalize(model) != model ==> exists i :: 0 < i < |model| && IsDate(model[i..]) && Canonicalize(model) == model[..i]
  {
    if i :| 0 < i < |model| && IsDate(model[i..]) {
      assert |model[i..]| == |model| - i;
    }
  }

  lemma CanonicalizeUndoesDate(name: string, suffix: string)
    requires name != [] && IsDate(suffix)
    ensures Canonicalize(name + suffix) == name
  {
    var model := name + suffix;
    assert model[|name|..] == suffix && model[..|name|] == name;
    if IsCompactDateSuffix(suffix) && |model| > 11 {
      assert model[|model| - 11..][2] == suffix[0] == '-';
    }
  }

  /** Exact name, then alias, then the name without its date. */
  function Resolve<T>(entries: map<string, T>, aliases: map<string, string>, model: string): Option<T> {
    if model in entries then Some(entries[model])
    else if model in aliases && aliases[model] in entries then Some(entries[aliases[model]])
    else if Canonicalize(model) != model && Canonicalize(model) in entries then Some(entries[Canonicalize(model)])
    else None
  }

  /** A name dated in either style costs what the name costs, unless the dated name is configured itself. */
  lemma DatedNameResolves<T>(entries: map<string, T>, aliases: map<string, string>, name: string, suffix: string)
    requires name in entries && name != [] && IsDate(suffix)
    requires name + suffix !in entries && name + suffix !in aliases
    ensures Resolve(entries, aliases, name + suffix) == Resolve(entries, aliases, name) == Some(entries[name])
  {
    CanonicalizeUndoesDate(name, suffix);
    assert |name + suffix| == |name| + |suffix|;
  }

  function Lookup(p: Pricing, model: string): Option<ModelPrice> { Resolve(p.models, p.aliasIndex, model) }

  function LookupMultimodal(p: Pricing, model: string): Option<MultimodalPrice> {
    Resolve(p.multimodal, p.multimodalAliasIndex, model)
  }

  predicate HasMultimodal(p: Pricing, model: string) { LookupMultimodal(p, model).Some? }

  /** The charge for a homogeneous bucket; none when the model has no text price. */
  function CostText(p: Pricing, model: string, requestInput: int,
                    input: int, output: int, reasoning: int, cached: int, creation: int): Option<real> {
    match Lookup(p, model)
    case None => None
    case Some(mp) => Some(ComputeCost(ResolveTextTier(mp, requestInput), input, output, reasoning, cached, creation))
  }

  /** The same of the charge for a request: two configurations whose prices of the model differ in one rate of one tier. */
  lemma OneRateInText(p: Pricing, q: Pricing, model: string, a: ModelPrice, b: ModelPrice, long: bool, rate: Rate,
                      requestInput: int, u: TextUsage)
    requires Lookup(p, model) == Some(a) && Lookup(q, model) == Some(b) && OnlyDiffersIn(a, b, long, rate)
    requires rate == ThinkingRate || rate == WriteRate ==> RateOf(a, long, rate) > 0.0 && RateOf(b, long, rate) > 0.0
    ensures var before := CostText(p, model, requestInput, u.input, u.output, u.reasoning, u.cached, u.creation);
      var after := CostText(q, model, requestInput, u.input, u.output, u.reasoning, u.cached, u.creation);
      && before.Some? && after.Some?
      && after.value - before.value
         == if InLongTier(a, requestInput) == long
            then Charge(BilledAt(a, long, rate, u), RateOf(b, long, rate) - RateOf(a, long, rate)) else 0.0
  {
    hide Lookup, ComputeCost, Charge, BilledAt, OnlyDiffersIn;
    OneRateMatters(a, b, long, rate, requestInput, u);
  }

  // ---------- image prices ----------

  datatype SizeKey = SizeDefault | Size1K | Size2K

  datatype Channel = TextTokens | PictureTokens | MixedTokens

  datatype Direction = Input | CachedInput | Output

  function Lower(c: char): char { if 'A' <= c <= 'Z' then c - 'A' + 'a' else c }

  predicate EqualFold(s: string, t: string) { |s| == |t| && forall i | 0 <= i < |s| :: Lower(s[i]) == Lower(t[i]) }

  /** A trimmed size, and whether the default stands in for an unknown one. */
  function NormalizeImageSize(size: string): (SizeKey, bool) {
    if size == "" then (SizeDefault, true)
    else if EqualFold(size, "default") then (SizeDefault, false)
    else if EqualFold(size, "1K") || "1024" <= size then (Size1K, false)
    else if EqualFold(size, "2K") || "2048" <= size then (Size2K, false)
    else (SizeDefault, true)
  }

  function PerImageInputConfigured(mp: ModalityPrice): bool { mp.hasPerImageInput || mp.perImageInput != 0.0 }

  /** Cost of the images, whether all of it is priced, and whether the size was defaulted. */
  function CostImages(p: Pricing, model: string, inputCount: int, outputCount: int, size: string): (real, bool, bool) {
    var (key, defaulted) := NormalizeImageSize(size);
    if inputCount <= 0 && outputCount <= 0 then (0.0, true, defaulted)
    else match LookupMultimodal(p, model)
    case None => (0.0, false, defaulted)
    case Some(mp) =>
      var inputKnown := inputCount <= 0 || PerImageInputConfigured(mp.image);
      var outputKnown := outputCount <= 0 || (mp.image.perImageOutput.Some? && key in mp.image.perImageOutput.value);
      ((if inputCount > 0 && inputKnown then inputCount as real * mp.image.perImageInput else 0.0)
       + (if outputCount > 0 && outputKnown then outputCount as real * mp.image.perImageOutput.value[key] else 0.0),
       inputKnown && outputKnown, defaulted)
  }

  predicate HasPerImagePricing(p: Pricing, model: string) {
    match LookupMultimodal(p, model)
    case None => false
    case Some(mp) => PerImageInputConfigured(mp.image) || mp.image.perImageOutputKeySet || mp.image.perImageOutput.Some?
  }

  predicate HasTokenPrice(mp: ModalityPrice) {
    mp.input > 0.0 || mp.cachedInput > 0.0 || mp.output > 0.0 || mp.reasoning > 0.0
  }

  predicate HasImageTokenPricing(p: Pricing, model: string) {
    match LookupMultimodal(p, model)
    case None => false
    case Some(mp) => HasTokenPrice(mp.text) || HasTokenPrice(mp.image)
  }

  function TokenRate(mp: MultimodalPrice, channel: Channel, direction: Direction): real {
    var price := if channel == TextTokens then mp.text else mp.image;
    match direction case Input => price.input case CachedInput => price.cachedInput case Output => price.output
  }

  /** The charge for one token dimension of an image request; none when it has no positive rate. */
  function CostDimension(p: Pricing, model: string, channel: Channel, direction: Direction, amount: int): Option<real> {
    if amount <= 0 then Some(0.0)
    else match LookupMultimodal(p, model)
    case None => None
    case Some(mp) =>
      var rate := TokenRate(mp, channel, direction);
      if rate <= 0.0 then None else Some(Charge(amount, rate))
  }

  // ---------- which image price applies ----------

  /** The sizes told apart: any beginning with 1024 or 2048, three names in any case, and all else the default. */
  lemma SizesExactly(size: string)
    ensures var (key, defaulted) := NormalizeImageSize(size);
      && (key == Size1K <==> EqualFold(size, "1K") || "1024" <= size)
      && (key == Size2K <==> EqualFold(size, "2K") || "2048" <= size)
      && (defaulted <==> key == SizeDefault && !EqualFold(size, "default"))
  {
    assert "1K"[0] != "2K"[0] && "1024"[0] != "2048"[0] && "1K"[1] != "1024"[1];
    assert |"default"| == 7 && "default"[0] == 'd';
    if "1024" <= size { assert size[0] == '1' && size[1] == '0'; }
    if "2048" <= size { assert size[0] == '2' && size[1] == '0'; }
    if EqualFold(size, "1K") { assert Lower(size[0]) == Lower("1K"[0]) && Lower(size[1]) == Lower("1K"[1]); }
    if EqualFold(size, "2K") { assert Lower(size[0]) == Lower("2K"[0]) && Lower(size[1]) == Lower("2K"[1]); }
    if EqualFold(size, "default") { assert Lower(size[0]) == Lower("default"[0]); }
  }

  predicate SizePriced(mp: MultimodalPrice, size: string) {
    mp.image.perImageOutput.Some? && NormalizeImageSize(size).0 in mp.image.perImageOutput.value
  }

  /** When all of a charge for images is priced: a free input price counts if it is configured, an output price if the size has one. */
  lemma ImagesPricedExactly(p: Pricing, model: string, mp: MultimodalPrice, inputCount: int, outputCount: int, size: string)
    requires LookupMultimodal(p, model) == Some(mp)
    ensures CostImages(p, model, inputCount, outputCount, size).1 <==>
              && (inputCount > 0 ==> mp.image.hasPerImageInput || mp.image.perImageInput != 0.0)
              && (outputCount > 0 ==> SizePriced(mp, size))
  {
    hide LookupMultimodal, NormalizeImageSize;
  }

  /** Raising the output price of one size raises what the output images of that size cost, by it, and nothing else. */
  lemma OneSizeMatters(p: Pricing, q: Pricing, model: string, a: MultimodalPrice, b: MultimodalPrice, key: SizeKey, x: real,
                       inputCount: int, outputCount: int, size: string)
    requires LookupMultimodal(p, model) == Some(a) && LookupMultimodal(q, model) == Some(b)
    requires a.image.perImageOutput.Some? && key in a.image.perImageOutput.value
    requires b == a.(image := a.image.(perImageOutput := Some(a.image.perImageOutput.value[key := x])))
    ensures var before, after := CostImages(p, model, inputCount, outputCount, size), CostImages(q, model, inputCount, outputCount, size);
      && after.1 == before.1
      && after.0 - before.0 == if outputCount > 0 && NormalizeImageSize(size).0 == key
                               then outputCount as real * (x - a.image.perImageOutput.value[key]) else 0.0
  {
    hide LookupMultimodal, NormalizeImageSize;
    var was := a.image.perImageOutput.value[key];
    assert outputCount as real * x - outputCount as real * was == outputCount as real * (x - was);
  }

  /** Raising the input price raises what the input images cost, of whatever size. */
  lemma ImageInputMatters(p: Pricing, q: Pricing, model: string, a: MultimodalPrice, b: MultimodalPrice, x: real,
                          inputCount: int, outputCount: int, size: string)
    requires LookupMultimodal(p, model) == Some(a) && LookupMultimodal(q, model) == Some(b)
    requires PerImageInputConfigured(a.image) && x != 0.0
    requires b == a.(image := a.image.(perImageInput := x))
    ensures var before, after := CostImages(p, model, inputCount, outputCount, size), CostImages(q, model, inputCount, outputCount, size);
      && after.1 == before.1
      && after.0 - before.0 == if inputCount > 0 then inputCount as real * (x - a.image.perImageInput) else 0.0
  {
    hide LookupMultimodal, NormalizeImageSize;
    var was := a.image.perImageInput;
    assert inputCount as real * x - inputCount as real * was == inputCount as real * (x - was);
  }

  /** The token rates of one modality. */
  function TokenRates(mp: ModalityPrice, direction: Direction): real {
    match direction case Input => mp.input case CachedInput => mp.cachedInput case Output => mp.output
  }

  /** Prices that agree but for one rate of the text or of the image tokens. */
  ghost predicate OneTokenRate(a: MultimodalPrice, b: MultimodalPrice, pictures: bool, direction: Direction) {
    && (forall d: Direction | !(d == direction && pictures) :: TokenRates(a.image, d) == TokenRates(b.image, d))
    && (forall d: Direction | !(d == direction && !pictures) :: TokenRates(a.text, d) == TokenRates(b.text, d))
  }

  /** Text tokens are charged at the text rate of their direction, image and mixed tokens at the image rate. */
  lemma OneTokenRateMatters(p: Pricing, q: Pricing, model: string, a: MultimodalPrice, b: MultimodalPrice, pictures: bool,
                            direction: Direction, channel: Channel, way: Direction, amount: int)
    requires LookupMultimodal(p, model) == Some(a) && LookupMultimodal(q, model) == Some(b) && OneTokenRate(a, b, pictures, direction)
    ensures var low := TokenRates(if pictures then a.image else a.text, direction);
      var high := TokenRates(if pictures then b.image else b.text, direction);
      var before, after := CostDimension(p, model, channel, way, amount), CostDimension(q, model, channel, way, amount);
      if amount > 0 && way == direction && (channel == TextTokens <==> !pictures) then
        && (after.Some? <==> high > 0.0) && (before.Some? <==> low > 0.0)
        && (before.Some? && after.Some? ==> after.value - before.value == Charge(amount, high - low))
      else after == before
  {
    hide LookupMultimodal, Charge;
    assert TokenRate(a, channel, way) == TokenRates(if channel == TextTokens then a.text else a.image, way);
    assert TokenRate(b, channel, way) == TokenRates(if channel == TextTokens then b.text else b.image, way);
    ChargeMoves(amount, TokenRates(if pictures then a.image else a.text, direction),
                TokenRates(if pictures then b.image else b.text, direction));
  }

  /** Image tokens are priced as such as soon as one of the text or image rates is positive. */
  lemma TokenPricingExactly(p: Pricing, model: string)
    ensures HasImageTokenPricing(p, model) <==>
              && LookupMultimodal(p, model).Some?
              && var mp := LookupMultimodal(p, model).value;
              && ((exists channel, direction :: TokenRate(mp, channel, direction) > 0.0)
                  || mp.text.reasoning > 0.0 || mp.image.reasoning > 0.0)
  {
    hide LookupMultimodal;
    match LookupMultimodal(p, model)
    case None =>
    case Some(mp) =>
      assert TokenRate(mp, TextTokens, Input) == mp.text.input && TokenRate(mp, PictureTokens, Input) == mp.image.input;
      assert TokenRate(mp, TextTokens, CachedInput) == mp.text.cachedInput && TokenRate(mp, PictureTokens, CachedInput) == mp.image.cachedInput;
      assert TokenRate(mp, TextTokens, Output) == mp.text.output && TokenRate(mp, PictureTokens, Output) == mp.image.output;
  }
}
