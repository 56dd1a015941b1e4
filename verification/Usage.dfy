/** Token usage read from a provider: saturating sums, and merging over a stream. */
module Usage {
  import opened Bytes

  const MAX_INT64: int := 9223372036854775807
  const TWO_64: int := 18446744073709551616

  type int64 = x: int | -9223372036854775808 <= x <= 9223372036854775807

  /** A 64-bit signed result, wrapped around as the machine addition does. */
  function Wrap64(x: int): int64 {
    var r := x % TWO_64;
    if r > MAX_INT64 then r - TWO_64 else r
  }

  lemma WrapExact(x: int)
    requires -MAX_INT64 - 1 <= x <= MAX_INT64
    ensures Wrap64(x) == x
  {
    if x < 0 { assert x % TWO_64 == x + TWO_64; }
  }

  lemma WrapInRange(x: int)
    ensures -MAX_INT64 - 1 <= Wrap64(x) <= MAX_INT64
  {}

  lemma WrapAdds(x: int, y: int)
    ensures Wrap64(Wrap64(x) + y) == Wrap64(x + y)
  {
    var k := (x - Wrap64(x)) / TWO_64;
    assert x - Wrap64(x) == k * TWO_64 by { assert x == (x / TWO_64) * TWO_64 + x % TWO_64; }
    assert (Wrap64(x) + y) % TWO_64 == (Wrap64(x) + y + k * TWO_64) % TWO_64 by { ModShift(Wrap64(x) + y, k); }
  }

  lemma ModShift(x: int, k: int)
    ensures (x + k * TWO_64) % TWO_64 == x % TWO_64
  {
    var q := x / TWO_64;
    assert x + k * TWO_64 == (q + k) * TWO_64 + x % TWO_64;
  }

  // ---------- saturating sums ----------

  function TokenCount(v: int64): int64 { if v < 0 then 0 else v }

  /** The exact sum of the counts, negative ones taken as zero. */
  function ExactSum(values: seq<int64>): nat {
    if values == [] then 0 else TokenCount(values[0]) + ExactSum(values[1..])
  }

  function SaturatedSum(values: seq<int64>): int64 { Min(ExactSum(values), MAX_INT64) }

  lemma {:induction false} ExactSumAppend(a: seq<int64>, b: seq<int64>)
    ensures ExactSum(a + b) == ExactSum(a) + ExactSum(b)
  {
    if a == [] {
      assert a + b == b;
    } else {
      assert (a + b)[1..] == a[1..] + b;
      ExactSumAppend(a[1..], b);
    }
  }

  lemma PairSum(a: int64, b: int64)
    ensures ExactSum([a, b]) == TokenCount(a) + TokenCount(b)
  {
    assert ExactSum([b]) == TokenCount(b) + ExactSum([]) by { assert [b][1..] == []; }
    assert [a, b][1..] == [b];
  }

  lemma TripleSum(a: int64, b: int64, c: int64)
    ensures ExactSum([a, b, c]) == TokenCount(a) + TokenCount(b) + TokenCount(c)
  {
    PairSum(b, c);
    assert [a, b, c][1..] == [b, c];
  }

  /** The accumulator never leaves the 64-bit range, and the result is the capped exact sum. */
  method SumTokenCounts(values: seq<int64>) returns (total: int64)
    ensures total == SaturatedSum(values)
  {
    total := 0;
    for i := 0 to |values|
      invariant total == ExactSum(values[..i])
    {
      assert values[..i + 1] == values[..i] + [values[i]];
      ExactSumAppend(values[..i], [values[i]]);
      var value := TokenCount(values[i]);
      if value > MAX_INT64 - total {
        assert values == values[..i + 1] + values[i + 1..];
        ExactSumAppend(values[..i + 1], values[i + 1..]);
        return MAX_INT64;
      }
      total := total + value;
    }
    assert values[..|values|] == values;
  }

  /** The order of the counts does not matter. */
  lemma {:induction false} SaturatedSumAnyOrder(a: seq<int64>, b: seq<int64>)
    requires multiset(a) == multiset(b)
    ensures ExactSum(a) == ExactSum(b) && SaturatedSum(a) == SaturatedSum(b)
    decreases |a|
  {
    assert |a| == |multiset(a)| == |multiset(b)| == |b|;
    if a != [] {
      hide ExactSum;
      assert a[0] in multiset(a);
      var i := IndexOf(b, a[0]);
      MultisetWithoutOne(a, 0);
      MultisetWithoutOne(b, i);
      SumWithoutOne(a, 0);
      SumWithoutOne(b, i);
      SaturatedSumAnyOrder(a[..0] + a[1..], b[..i] + b[i + 1..]);
    }
  }

  lemma IndexOf(s: seq<int64>, x: int64) returns (i: nat)
    requires x in multiset(s)
    ensures i < |s| && s[i] == x
  {
    i :| 0 <= i < |s| && s[i] == x;
  }

  lemma SumWithoutOne(s: seq<int64>, i: nat)
    requires i < |s|
    ensures ExactSum(s) == TokenCount(s[i]) + ExactSum(s[..i] + s[i + 1..])
  {
    hide ExactSum;
    SplitAround(s, i);
    ExactSumAppend(s[..i], [s[i]] + s[i + 1..]);
    ExactSumAppend([s[i]], s[i + 1..]);
    ExactSumAppend(s[..i], s[i + 1..]);
    SingleSum(s[i]);
  }

  lemma SingleSum(x: int64)
    ensures ExactSum([x]) == TokenCount(x)
  {
    assert [x][1..] == [];
  }

  /** Nor does summing some of them first. */
  lemma SaturatedSumNests(a: seq<int64>, b: seq<int64>)
    ensures SaturatedSum([SaturatedSum(a)] + b) == SaturatedSum(a + b)
  {
    ExactSumAppend(a, b);
    assert ([SaturatedSum(a)] + b)[1..] == b;
  }

  // ---------- usage records ----------

  datatype UsageInfo = UsageInfo(
    model: string,
    inputTokens: int64, outputTokens: int64, reasoningTokens: int64,
    cachedTokens: int64, cacheCreationTokens: int64, totalTokens: int64,
    usageRawJSON: string,
    inputTextTokens: int64, inputImageTokens: int64, cachedTextTokens: int64, cachedImageTokens: int64,
    imageCount: int64, partialImageCount: int64, inputImageCount: int64,
    operation: string, size: string, quality: string, outputFormat: string,
    hasMask: bool)

  const NO_USAGE: UsageInfo :=
    UsageInfo("", 0, 0, 0, 0, 0, 0, "", 0, 0, 0, 0, 0, 0, 0, "", "", "", "", false)

  function Keep(current: int64, next: int64): int64 { if next != 0 then next else current }

  function KeepText(current: string, next: string): string { if next != "" then next else current }

  function MergedTotal(current: UsageInfo, next: UsageInfo): int64 {
    var input := Keep(current.inputTokens, next.inputTokens);
    var output := Keep(current.outputTokens, next.outputTokens);
    if next.totalTokens != 0 then
      if next.inputTokens == 0 && next.outputTokens != 0 && current.inputTokens != 0
         && next.totalTokens == next.outputTokens
      then Wrap64(input + next.outputTokens)
      else next.totalTokens
    else if next.inputTokens != 0 || next.outputTokens != 0 || next.reasoningTokens != 0 || next.cachedTokens != 0
    then Wrap64(input + output)
    else current.totalTokens
  }

  function Merge(current: Option<UsageInfo>, next: UsageInfo): UsageInfo {
    if current.None? then next
    else
      var c := current.value;
      UsageInfo(
        KeepText(c.model, next.model),
        Keep(c.inputTokens, next.inputTokens), Keep(c.outputTokens, next.outputTokens),
        Keep(c.reasoningTokens, next.reasoningTokens), Keep(c.cachedTokens, next.cachedTokens),
        Keep(c.cacheCreationTokens, next.cacheCreationTokens), MergedTotal(c, next),
        KeepText(c.usageRawJSON, next.usageRawJSON),
        Keep(c.inputTextTokens, next.inputTextTokens), Keep(c.inputImageTokens, next.inputImageTokens),
        Keep(c.cachedTextTokens, next.cachedTextTokens), Keep(c.cachedImageTokens, next.cachedImageTokens),
        Keep(c.imageCount, next.imageCount),
        Wrap64(c.partialImageCount + next.partialImageCount),
        Keep(c.inputImageCount, next.inputImageCount),
        KeepText(c.operation, next.operation), KeepText(c.size, next.size),
        KeepText(c.quality, next.quality), KeepText(c.outputFormat, next.outputFormat),
        c.hasMask || next.hasMask)
  }

  /** A stream's usage: every reported record merged in turn. */
  function MergeAll(records: seq<UsageInfo>): Option<UsageInfo> {
    if records == [] then None
    else Some(Merge(MergeAll(records[..|records| - 1]), records[|records| - 1]))
  }

  // ---------- what a merged stream reports ----------

  function LastNonzero(records: seq<UsageInfo>, f: UsageInfo -> int64): int64 {
    if records == [] then 0
    else if f(records[|records| - 1]) != 0 then f(records[|records| - 1])
    else LastNonzero(records[..|records| - 1], f)
  }

  function LastNonempty(records: seq<UsageInfo>, f: UsageInfo -> string): string {
    if records == [] then ""
    else if f(records[|records| - 1]) != "" then f(records[|records| - 1])
    else LastNonempty(records[..|records| - 1], f)
  }

  function Sum(records: seq<UsageInfo>, f: UsageInfo -> int64): int {
    if records == [] then 0
    else Sum(records[..|records| - 1], f) + f(records[|records| - 1])
  }

  /** The five token fields that are merged one by one are each the last non-zero value reported for it. */
  lemma {:induction false} MergedTokens(records: seq<UsageInfo>)
    requires records != []
    ensures var m := MergeAll(records).value;
      && m.inputTokens == LastNonzero(records, (u: UsageInfo) => u.inputTokens)
      && m.outputTokens == LastNonzero(records, (u: UsageInfo) => u.outputTokens)
      && m.reasoningTokens == LastNonzero(records, (u: UsageInfo) => u.reasoningTokens)
      && m.cachedTokens == LastNonzero(records, (u: UsageInfo) => u.cachedTokens)
      && m.cacheCreationTokens == LastNonzero(records, (u: UsageInfo) => u.cacheCreationTokens)
  {
    var before := records[..|records| - 1];
    if before != [] { MergedTokens(before); }
  }

  /** A record that reports a total, or a count that a total is made of. */
  predicate TouchesTotal(u: UsageInfo) {
    u.totalTokens != 0 || u.inputTokens != 0 || u.outputTokens != 0 || u.reasoningTokens != 0 || u.cachedTokens != 0
  }

  /** The total reported for an output-only record is that output, not the total of the stream. */
  predicate OutputAsTotal(u: UsageInfo) { u.inputTokens == 0 && u.outputTokens == u.totalTokens != 0 }

  /**
   The total of a stream up to a record that touches it: the record's own, or the last input plus the last output when
   it reports none or only its output behind an input.
   */
  function TotalAt(records: seq<UsageInfo>, k: nat): int64
    requires k < |records|
  {
    var own := records[k].totalTokens;
    var input := LastNonzero(records[..k + 1], (u: UsageInfo) => u.inputTokens);
    var output := LastNonzero(records[..k + 1], (u: UsageInfo) => u.outputTokens);
    if k == 0 || (own != 0 && !(OutputAsTotal(records[k]) && input != 0)) then own else Wrap64(input + output)
  }

  lemma TotalMerged(records: seq<UsageInfo>)
    requires records != []
    ensures var n := |records| - 1;
      MergeAll(records).value.totalTokens
      == if n == 0 then records[n].totalTokens else MergedTotal(MergeAll(records[..n]).value, records[n])
  {
    hide MergedTotal, Keep, KeepText, Wrap64;
  }

  /** A record that touches the total of a stream, behind others. */
  lemma TouchedTotal(records: seq<UsageInfo>)
    requires |records| > 1 && TouchesTotal(records[|records| - 1])
    ensures MergedTotal(MergeAll(records[..|records| - 1]).value, records[|records| - 1]) == TotalAt(records, |records| - 1)
  {
    hide Wrap64, MergeAll;
    var n := |records| - 1;
    MergedTokens(records[..n]);
    assert records[..n + 1] == records;
  }

  /** The merged total is the one at the last record that touches it, and 0 when none does. */
  lemma {:induction false} MergedTotalExactly(records: seq<UsageInfo>, k: nat)
    requires records != [] && k <= |records| && forall j | k <= j < |records| :: !TouchesTotal(records[j])
    requires k > 0 ==> TouchesTotal(records[k - 1])
    ensures MergeAll(records).value.totalTokens == if k == 0 then 0 else TotalAt(records, k - 1)
  {
    hide Wrap64, MergeAll, LastNonzero;
    var n := |records| - 1;
    var before := records[..n];
    TotalMerged(records);
    if k == |records| {
      if n > 0 { TouchedTotal(records); }
    } else if n > 0 {
      MergedTotalExactly(before, k);
      if k > 0 { assert before[..k] == records[..k]; }
    }
  }

  lemma {:induction false} MergedImageFields(records: seq<UsageInfo>)
    requires records != []
    ensures var m := MergeAll(records).value;
      && m.inputTextTokens == LastNonzero(records, (u: UsageInfo) => u.inputTextTokens)
      && m.inputImageTokens == LastNonzero(records, (u: UsageInfo) => u.inputImageTokens)
      && m.cachedTextTokens == LastNonzero(records, (u: UsageInfo) => u.cachedTextTokens)
      && m.cachedImageTokens == LastNonzero(records, (u: UsageInfo) => u.cachedImageTokens)
      && m.imageCount == LastNonzero(records, (u: UsageInfo) => u.imageCount)
      && m.inputImageCount == LastNonzero(records, (u: UsageInfo) => u.inputImageCount)
  {
    var before := records[..|records| - 1];
    if before != [] { MergedImageFields(before); }
  }

  lemma {:induction false} MergedText(records: seq<UsageInfo>)
    requires records != []
    ensures var m := MergeAll(records).value;
      && m.model == LastNonempty(records, (u: UsageInfo) => u.model)
      && m.usageRawJSON == LastNonempty(records, (u: UsageInfo) => u.usageRawJSON)
      && m.operation == LastNonempty(records, (u: UsageInfo) => u.operation)
      && m.size == LastNonempty(records, (u: UsageInfo) => u.size)
      && m.quality == LastNonempty(records, (u: UsageInfo) => u.quality)
      && m.outputFormat == LastNonempty(records, (u: UsageInfo) => u.outputFormat)
      && m.hasMask == (exists i | 0 <= i < |records| :: records[i].hasMask)
  {
    var n := |records| - 1;
    var before := records[..n];
    if before != [] {
      MergedText(before);
      if i :| 0 <= i < n && records[i].hasMask { assert before[i].hasMask; }
    }
  }

  /** Partial images alone are counted up, in 64-bit arithmetic. */
  lemma {:induction false} MergedPartialImages(records: seq<UsageInfo>)
    requires records != []
    ensures MergeAll(records).value.partialImageCount == Wrap64(Sum(records, (u: UsageInfo) => u.partialImageCount))
  {
    var f := (u: UsageInfo) => u.partialImageCount;
    var n := |records| - 1;
    var before := records[..n];
    if before == [] {
      assert Sum(before, f) == 0;
      WrapExact(f(records[n]));
    } else {
      MergedPartialImages(before);
      WrapAdds(Sum(before, f), f(records[n]));
    }
  }

  // ---------- provider records ----------

  datatype AnthropicUsage = AnthropicUsage(input: int64, output: int64, cacheCreation: int64, cacheRead: int64)

  /** The record of an Anthropic usage object; none when it reports no tokens. */
  function AnthropicInfo(model: string, raw: string, u: AnthropicUsage): Option<UsageInfo> {
    if u.input > 0 || u.output > 0 || u.cacheCreation > 0 || u.cacheRead > 0 then
      var input := SaturatedSum([u.input, u.cacheCreation, u.cacheRead]);
      var output := TokenCount(u.output);
      Some(NO_USAGE.(model := model, usageRawJSON := raw,
                     inputTokens := input, outputTokens := output,
                     cachedTokens := TokenCount(u.cacheRead), cacheCreationTokens := TokenCount(u.cacheCreation),
                     totalTokens := SaturatedSum([input, output])))
    else None
  }

  /**
   What an Anthropic usage object means: the input is that which was read, what was written to the cache and what was
   read from it, each also reported by itself; the total is input and output. Negative counts are none, and a sum that
   does not fit is capped; without a positive count there is no record.
   */
  lemma AnthropicExactly(model: string, raw: string, u: AnthropicUsage)
    ensures var info := AnthropicInfo(model, raw, u);
      var input := TokenCount(u.input) + TokenCount(u.cacheCreation) + TokenCount(u.cacheRead);
      && (info.None? <==> input == 0 && TokenCount(u.output) == 0)
      && (info.Some? ==>
            && info.value.inputTokens == Min(input, MAX_INT64) && info.value.outputTokens == TokenCount(u.output)
            && info.value.cachedTokens == TokenCount(u.cacheRead)
            && info.value.cacheCreationTokens == TokenCount(u.cacheCreation)
            && info.value.totalTokens == Min(input + TokenCount(u.output), MAX_INT64)
            && info.value.reasoningTokens == 0 && info.value.model == model && info.value.usageRawJSON == raw)
  {
    hide ExactSum;
    TripleSum(u.input, u.cacheCreation, u.cacheRead);
    PairSum(SaturatedSum([u.input, u.cacheCreation, u.cacheRead]), TokenCount(u.output));
  }

  /** A `message_delta` reports the running output count and nothing else. */
  ghost predicate OutputOnly(u: UsageInfo) {
    exists raw: string, output: int64 :: AnthropicInfo("", raw, AnthropicUsage(0, output, 0, 0)) == Some(u)
  }

  lemma OutputOnlyFields(u: UsageInfo)
    requires OutputOnly(u)
    ensures u.inputTokens == 0 && u.reasoningTokens == 0 && u.cachedTokens == 0
    ensures u.totalTokens == u.outputTokens > 0
  {
    hide ExactSum;
    var raw: string, output: int64 :| AnthropicInfo("", raw, AnthropicUsage(0, output, 0, 0)) == Some(u);
    TripleSum(0, 0, 0);
    PairSum(0, TokenCount(output));
  }

  /**
   An Anthropic stream: a start that reports input, then output-only deltas.  The
   merged total is the start's input plus the last output, modulo 2^64.
   */
  lemma {:induction false} AnthropicStreamTotal(start: UsageInfo, deltas: seq<UsageInfo>)
    requires start.inputTokens > 0 && deltas != []
    requires forall i | 0 <= i < |deltas| :: OutputOnly(deltas[i])
    ensures var m := MergeAll([start] + deltas).value;
      && m.inputTokens == start.inputTokens
      && m.outputTokens == deltas[|deltas| - 1].outputTokens
      && m.totalTokens == Wrap64(start.inputTokens + deltas[|deltas| - 1].outputTokens)
  {
    var n := |deltas| - 1;
    var records := [start] + deltas;
    assert records[..n + 1] == [start] + deltas[..n];
    OutputOnlyFields(deltas[n]);
    if n == 0 {
      assert records[..n + 1] == [start];
      assert MergeAll([start]) == Some(start);
    } else {
      AnthropicStreamTotal(start, deltas[..n]);
    }
  }

  /** The total is exact precisely when the sum fits in 64 bits. */
  lemma AnthropicTotalExactly(start: UsageInfo, deltas: seq<UsageInfo>)
    requires start.inputTokens > 0 && deltas != []
    requires forall i | 0 <= i < |deltas| :: OutputOnly(deltas[i])
    ensures var m := MergeAll([start] + deltas).value;
      m.totalTokens == m.inputTokens + m.outputTokens
      <==> start.inputTokens + deltas[|deltas| - 1].outputTokens <= MAX_INT64
  {
    hide MergeAll, Wrap64, OutputOnly;
    AnthropicStreamTotal(start, deltas);
    OutputOnlyFields(deltas[|deltas| - 1]);
    WrapInRange(start.inputTokens + deltas[|deltas| - 1].outputTokens);
    var sum := start.inputTokens + deltas[|deltas| - 1].outputTokens;
    if sum <= MAX_INT64 { WrapExact(sum); }
  }

  datatype GeminiUsage = GeminiUsage(
    prompt: int64, candidates: int64, total: int64, cached: int64, thoughts: int64, toolUse: int64)

  function GeminiInfo(model: string, u: GeminiUsage): UsageInfo {
    var thoughts := TokenCount(u.thoughts);
    var cached := TokenCount(u.cached);
    var input0 := SaturatedSum([TokenCount(u.prompt), TokenCount(u.toolUse)]);
    var input := if input0 == 0 && cached > 0 then cached else input0;
    var output0 := SaturatedSum([u.candidates, thoughts]);
    var providerTotal := TokenCount(u.total);
    var output: int64 := if output0 == 0 && providerTotal > input then providerTotal - input else output0;
    var total := if providerTotal == 0 then SaturatedSum([input, output]) else providerTotal;
    NO_USAGE.(model := model, inputTokens := input, outputTokens := output,
              reasoningTokens := thoughts, cachedTokens := cached, totalTokens := total)
  }

  /**
   What a Gemini usage object means when it reports its parts: prompt and tool use are input, candidates and thoughts
   output, thoughts alone reasoning; a total is the provider's, or else input and output.
   */
  lemma GeminiExactly(model: string, u: GeminiUsage)
    requires TokenCount(u.prompt) + TokenCount(u.toolUse) > 0 && TokenCount(u.candidates) + TokenCount(u.thoughts) > 0
    ensures var info := GeminiInfo(model, u);
      && info.inputTokens == Min(TokenCount(u.prompt) + TokenCount(u.toolUse), MAX_INT64)
      && info.outputTokens == Min(TokenCount(u.candidates) + TokenCount(u.thoughts), MAX_INT64)
      && info.reasoningTokens == TokenCount(u.thoughts) && info.cachedTokens == TokenCount(u.cached)
      && info.cacheCreationTokens == 0 && info.model == model
      && info.totalTokens == if u.total > 0 then u.total else Min(info.inputTokens + info.outputTokens, MAX_INT64)
  {
    hide ExactSum;
    PairSum(TokenCount(u.prompt), TokenCount(u.toolUse));
    PairSum(u.candidates, TokenCount(u.thoughts));
    PairSum(GeminiInfo(model, u).inputTokens, GeminiInfo(model, u).outputTokens);
  }

  /** And when parts are missing: cached tokens stand in for the input, and what the total leaves for the output. */
  lemma GeminiFallsBack(model: string, u: GeminiUsage)
    ensures var info := GeminiInfo(model, u);
      && (TokenCount(u.prompt) + TokenCount(u.toolUse) == 0 ==> info.inputTokens == TokenCount(u.cached))
      && (TokenCount(u.candidates) + TokenCount(u.thoughts) == 0 ==> info.outputTokens == Max(TokenCount(u.total) - info.inputTokens, 0))
  {
    hide ExactSum;
    PairSum(TokenCount(u.prompt), TokenCount(u.toolUse));
    PairSum(u.candidates, TokenCount(u.thoughts));
  }

  /**
   A Gemini record never reports a negative count nor more reasoning than output,
   whatever the provider sent, and without a provider total its parts add up to
   its total, capped.
   */
  lemma GeminiReasoningWithinOutput(model: string, u: GeminiUsage)
    ensures var info := GeminiInfo(model, u);
      && 0 <= info.reasoningTokens <= info.outputTokens
      && 0 <= info.inputTokens && 0 <= info.cachedTokens && 0 <= info.totalTokens
      && (u.total <= 0 ==> info.totalTokens == Min(info.inputTokens + info.outputTokens, MAX_INT64))
      && (u.candidates <= 0 && u.thoughts <= 0 && u.total > info.inputTokens ==>
            info.inputTokens + info.outputTokens == info.totalTokens)
  {
    var info := GeminiInfo(model, u);
    PairSum(TokenCount(u.prompt), TokenCount(u.toolUse));
    PairSum(u.candidates, TokenCount(u.thoughts));
    PairSum(info.inputTokens, info.outputTokens);
  }
}
