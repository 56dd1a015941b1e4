# Verification of the metering path

This project models how an AI gateway measures what passes through it, and proves properties of the model in
Dafny 4.11. It follows a response from its bytes to a cost report: bytes become lines, lines become events, events
become usage, usage is written in batches, is completed from a side channel, and is priced in buckets.
`dafny verify dfyconfig.toml` checks everything.

| file | what it holds |
|---|---|
| `Bytes.dfy`, `Sums.dfy` | byte strings and concatenation; sums over a sequence and over its parts |
| `JsonScan.dfy`, `JsonPrint.dfy` | the JSON scanner that works on truncated bodies; a printer of JSON trees (RFC 8259) that it inverts |
| `SampleBuffer.dfy`, `BodyReader.dfy` | the ring buffer sample of a body; the model scan, the replaying and counting readers |
| `Lines.dfy`, `SseAssembler.dfy`, `StreamMeter.dfy` | lines against the whole text, events against lines, and the loop that puts both together |
| `Usage.dfy`, `ResponsesState.dfy` | saturating sums and usage merging; the state machine over Responses events |
| `SideMerge.dfy`, `Resp.dfy` | matching side-channel events to request rows; the RESP framing that delivers them |
| `Confidence.dfy` | what a match does to the confidence class of a request |
| `BatchWriter.dfy`, `Singleflight.dfy` | two concurrent protocols as interleaved atomic steps |
| `Pricing.dfy`, `Aliases.dfy` | tiers, input breakdown, model lookup, image prices; the alias namespace |
| `CostBuckets.dfy`, `ImageBuckets.dfy`, `CostReport.dfy`, `CostEvaluation.dfy` | grouping requests into buckets, pricing buckets, regrouping them into report cells, and the loop that does it |
| `CostRefinement.dfy` | coarse against fine buckets over the same requests |
| `CostShortfall.dfy` | the usage missing from image requests, in the cells of a report and in its summary |
| `CostReasons.dfy` | why a cost is partial |
| `Timeline.dfy`, `TimelineMerge.dfy` | error counts from sampled counters; merging timelines |

Code that updates fields or loops over a buffer is modelled by classes and methods whose contracts tie the new state
to a specification function of the old one. The lemmas are about those functions, and so about the methods.

## Where the code is not what one would expect

Each of these comes with an input that shows it and with the exact condition under which the plain expectation holds.

- A `\r\n` separated by the end of a read is taken as two line breaks. Every such cut adds exactly one empty line
  (`Lines.ReadAddsOneEmptyLine`); the lines are those of the text iff there is no such cut (`Lines.SeenLinesExactly`).
  The empty line can cut an event in two (`SseAssembler.BlankLineCutsAnEvent`) and is unseen iff nothing waits
  (`SseAssembler.BlankLineHarmless`). Cuts at which nothing waits, or behind which no data line comes before the next
  blank line, change no outcome (`StreamMeter.QuietCutsDoNotMatter`).
- With an odd limit a sample can lose the middle byte of a body of exactly that length although no overflow is
  reported (`SampleBuffer.SilentLossExactly`, `SampleBuffer.OddLimitLosesAByte`).
- An event dropped for its size counts two skips, one where it overflows and one at its blank line
  (internal/proxy/proxy.go:797-801 and 809-814); the exact count is in `SseAssembler.SkipsExactly` and
  `StreamMeter.SkipsOfStream`, an input in `SseAssembler.OneDroppedEventTwoSkips`.
- A line complete by itself overtakes lines that still wait (`SseAssembler.CompleteLineOvertakes`); the order is kept
  iff none does (`SseAssembler.OrderKeptExactly`).
- Pricing a bucket is cheaper than pricing its requests iff the bucket mixes requests with more reasoning than output
  and requests with less, at positive rates for both (`CostBuckets.TextBucketsExactly`, `CostBuckets.MixingLosesMoney`).
  For the same reason a summary can be cheaper than its time series (`CostRefinement.RefiningNeverLowers`,
  `CostRefinement.SeriesDearerThanSummary`).
- More input can make a request cheaper: exactly when there was no input and the new one cuts off cached or creation
  tokens that have a price (`Pricing.MoreInputCostsLessExactly`); a million cached tokens cost a million times more
  without input than with one token of it (`Pricing.OneInputTokenMakesItCheap`). The input of each channel of an image
  request behaves the same (`ImageBuckets.MoreChannelInputCostsLessExactly`).
- If a request had two image rows, a report cell could call a model unpriced that the ungrouped report prices
  (`CostReport.GroupingCanUnprice`, `CostReport.UnpricedInCellsExactly`). The writer stores at most one, and then the
  two agree (`CostReport.GroupingKeepsUnpriced`).
- The cells of a report can miss more usage than its summary: exactly when an image model lacks usage in one cell and
  has more than expected in another (`CostShortfall.ReportCanMissMore`, `CostShortfall.SummaryHidesMissing`).
- The queue depth lags by the events sent and not yet counted (`BatchWriter.EveryInterleavingKeepsInv`), so it can be
  negative (`BatchWriter.DepthCanBeNegative`). What is sent after the loop last found the queue empty stays there
  (`BatchWriter.StopDrains`), although it was accepted (`BatchWriter.LateSendStays`).
- Matching again with another window changes nothing iff the event's row is still the first in it
  (`SideMerge.ReapplyExactly`); a wider one can leave two rows pointing at one event
  (`SideMerge.WiderWindowLeavesTwoRows`). The poller, the one caller, matches every event once, right after storing it
  (internal/usagequeue/poller.go:260), so this concerns the store's interface only.
- Asking a Responses stream for its result before the end shows in the final answer iff it found tokens that the end
  no longer has (`ResponsesState.AskingEarlyShowsExactly`, `ResponsesState.AskingEarlyCanShow`). The proxy asks once, at
  the end (internal/proxy/proxy.go:1285).
- A restart is missed when the new process has already counted past the old sample, and what was counted between a
  sample and a restart is gone (`Timeline.GapExactly`, `Timeline.RestartCanBeMissed`).

## Model

| member | source | states |
|---|---|---|
| `JsonScan.SkipJSONWhitespace` | internal/proxy/proxy.go:2241-2251 | stops at the first byte that is not JSON white space, as the specification function the other results are about |
| `JsonScan.ScanJSONStringEnd` | internal/proxy/proxy.go:2253-2271 | returns the index past the closing quote of a string literal, escapes respected, and fails on an unclosed one |
| `JsonScan.SkipJSONComposite` | internal/proxy/proxy.go:2298-2338 | the depth-counting loop refines the recursive definition of a nested value, strings inside it skipped whole |
| `JsonScan.SkipJSONValueBytes` | internal/proxy/proxy.go:2273-2296 | refines the definition of skipping one value that the printer results are proved about |
| `JsonScan.FindTopLevelJSONValue` | internal/proxy/proxy.go:2195-2239 | the member loop refines the definition of the first top-level member with a key |
| `JsonScan.TopLevelJSONString` | internal/proxy/proxy.go:2093-2134 | the member's text, unescaped only when it holds an escape, is the recursive unescaping of it; `\u` escapes are refused |
| `JsonScan.DecodeEscapes` | internal/proxy/proxy.go:2106-2133 | the decode loop refines recursive unescaping, a cut-off or unknown escape fails |
| `JsonScan.TopLevelJSONArrayLen` | internal/proxy/proxy.go:2156-2193 | the counting loop refines the definition of an array's length |
| `JsonScan.CountArrayItems` | internal/proxy/proxy.go:2165-2192 | the counting loop refines the recursive count of the items up to the closing bracket |
| `JsonScan.FindTopStable` | internal/proxy/proxy.go:2195-2239 | a value start found before the end of a body is found at the same place in every longer body |
| `JsonScan.TopStringStable` | internal/proxy/proxy.go:2093-2134 | a string found in a truncated body is the string found in every extension of it |
| `JsonScan.TopArrayLenStable` | internal/proxy/proxy.go:2156-2193 | an array length found in a truncated body is the length found in every extension of it |
| `JsonPrint.ValuePassed` | internal/proxy/proxy.go:2298-2338 | scanning for a closing bracket passes any printed value inside without a change of depth |
| `JsonPrint.CompositeScanned` | internal/proxy/proxy.go:2298-2338 | for every printed array or object the composite scan ends exactly behind its closing bracket |
| `JsonPrint.SkipValueInvertsPrint` | internal/proxy/proxy.go:2273-2296 | for every JSON tree printed with any white space and followed by a delimiter or the end, skipping returns exactly the index behind it |
| `JsonPrint.FindMemberInvertsPrint` | internal/proxy/proxy.go:2201-2239 | over printed members the loop returns exactly the index where the value of the first one with that raw key starts, and nothing when there is none |
| `JsonPrint.FindTopInvertsPrint` | internal/proxy/proxy.go:2195-2239 | on a printed object, with any text behind it, the result is exactly the start of the value of the first top-level member with the key, so never a nested one, and nothing iff there is none |
| `JsonPrint.SpellingDecodes` | internal/proxy/proxy.go:2102-2133 | a text is read back however each of its bytes is written, by itself or as any of the eight escapes |
| `JsonPrint.OnlySpellingsDecode` | internal/proxy/proxy.go:2102-2133 | and nothing else is read: what is decoded was written in one of these ways |
| `JsonPrint.OtherEscapesRefused` | internal/proxy/proxy.go:2108-2131 | a backslash before any other byte, such as a `u`, or before the end, fails the whole text |
| `JsonPrint.TopStringInvertsSpelling` | internal/proxy/proxy.go:2093-2134 | a string member, its bytes written in any of these ways, is returned as the text it spells |
| `JsonPrint.OnlyStringsAreRead` | internal/proxy/proxy.go:2093-2101 | a member that is missing or is no string is not read as one |
| `JsonPrint.OnlyObjectsAreSearched` | internal/proxy/proxy.go:2195-2200 | in a printed value that is no object no member is found |
| `JsonPrint.TopArrayLenCountsItems` | internal/proxy/proxy.go:2156-2193 | the length of a printed array member is the number of its items |
| `SampleBuffer.PrefixTailBuffer.Write` | internal/proxy/proxy.go:1017-1059 | whatever the split into writes, the object stands for the concatenation of all of them |
| `SampleBuffer.PrefixTailBuffer.WriteTail` | internal/proxy/proxy.go:1038-1058 | the ring holds the last half of what came behind the prefix |
| `SampleBuffer.PrefixTailBuffer.FillRing` | internal/proxy/proxy.go:1049-1057 | writing round the end of the ring shifts its window by the bytes written |
| `SampleBuffer.PrefixTailBuffer.AppendTail` | internal/proxy/proxy.go:1071-1092 | the tail is appended oldest byte first, without the skipped ones |
| `SampleBuffer.PrefixTailBuffer.Bytes` | internal/proxy/proxy.go:1094-1114 | returns the sample of all bytes written: everything while it fits, else prefix, line feed and tail |
| `SampleBuffer.RingAdvances` | internal/proxy/proxy.go:1049-1057 | overwriting a stretch of the ring keeps it the window over the last bytes |
| `SampleBuffer.LosslessExactly` | internal/proxy/proxy.go:1094-1114 | the sample is the body iff the body fits twice half the limit, or loses only a middle line feed that the sample puts back |
| `SampleBuffer.EvenLimitKeepsAll` | internal/proxy/proxy.go:1094-1118 | with an even limit no reported overflow means nothing is lost; with an odd one exactly the middle byte of a body of that very length may be |
| `SampleBuffer.SilentLossExactly` | internal/proxy/proxy.go:1094-1118 | a buffer that denies an overflow has lost something iff a full odd limit cost it a middle byte that is no line feed, or its limit is 0, which the proxy never sets |
| `SampleBuffer.OddLimitLosesAByte` | internal/proxy/proxy.go:1102-1118 | three bytes written to a buffer for three: the middle one is lost and `Overflow` is false |
| `SampleBuffer.SampleEnds` | internal/proxy/proxy.go:1094-1114 | the sample is bounded and agrees with the body at both ends |
| `SampleBuffer.LimitedBuffer.Write` | internal/proxy/proxy.go:990-1002 | keeps the first bytes of everything written and knows whether more came |
| `BodyReader.ReadBodyPrefix` | internal/proxy/proxy.go:190-224 | reads at least the configured prefix and never past the scan limit, ends at the first read boundary that names a model, and the model of what was read is that of all that may be read |
| `BodyReader.ScanOn` | internal/proxy/proxy.go:207-224 | the extended scan ends at a read boundary, no earlier one names a model, and without a model it ends at the limit |
| `BodyReader.EarlyStopAgrees` | internal/proxy/proxy.go:207-224 | stopping at the first prefix whose JSON names a model gives the model of the whole body |
| `BodyReader.ReplayReader.Read` | internal/proxy/proxy.go:460-470 | reads hand out prefix then source in order, losing and repeating nothing |
| `BodyReader.CountingReader.Read` | internal/proxy/proxy.go:439-446 | the bytes counted and probed are exactly those handed to the reader, in order |
| `Usage.SumTokenCounts` | internal/extractor/extractor.go:810-820 | the loop never leaves 64 bits and returns the exact sum of the non-negative parts, capped at 2^63-1 |
| `Usage.SaturatedSumAnyOrder` | internal/extractor/extractor.go:810-820 | the sum is the same for every order of the counts |
| `Usage.SaturatedSumNests` | internal/extractor/extractor.go:666-678 | summing some of the counts first changes nothing |
| `Usage.MergedTokens` | internal/proxy/proxy.go:1904-1917 | over any stream input, output, reasoning, cached and cache creation tokens are each the last non-zero value reported |
| `Usage.MergedTotalExactly` | internal/proxy/proxy.go:1919-1929 | over any stream the total is that at the last record that touches it: its own, or the last input plus the last output when it reports none or only its output behind an input; and 0 when none touches it |
| `Usage.MergedImageFields` | internal/proxy/proxy.go:1891-1970 | the same for the image token and count fields |
| `Usage.MergedText` | internal/proxy/proxy.go:1891-1970 | text fields are the last non-empty ones, and the mask flag holds iff some record had it |
| `Usage.MergedPartialImages` | internal/proxy/proxy.go:1948-1950 | partial image counts alone are summed, with the wrap of 64-bit addition |
| `Usage.AnthropicStreamTotal` | internal/proxy/proxy.go:1891-1970 | a start with input and any number of output-only deltas end with total = start input + last output, in 64-bit arithmetic |
| `Usage.AnthropicTotalExactly` | internal/proxy/proxy.go:1891-1970 | that total is input plus output iff the sum fits in 64 bits |
| `Usage.AnthropicExactly` | internal/extractor/extractor.go:653-685 | an Anthropic usage object: input is what was read, written to the cache and read from it, cached and creation tokens each what they are, the total input and output, all capped; no record without a positive count |
| `Usage.GeminiExactly` | internal/extractor/extractor.go:757-784 | a Gemini usage object with its parts: prompt and tool use are input, candidates and thoughts output, thoughts reasoning, the total the provider's or else the sum |
| `Usage.GeminiFallsBack` | internal/extractor/extractor.go:757-784 | without input parts the cached tokens stand in, without output parts what the total leaves |
| `Usage.GeminiReasoningWithinOutput` | internal/extractor/extractor.go:757-784 | a Gemini record never has more reasoning than output, and its total agrees with its parts when the provider gives none or gives nothing but a total |
| `Lines.LinesAppend` | internal/proxy/proxy.go:723-737 | a text read in two parts has the lines of the first, then those read behind its unfinished line |
| `Lines.SpuriousLine` | internal/proxy/proxy.go:723-737 | taking a separated line feed as it is adds one empty line and changes nothing else |
| `Lines.ReadAddsOneEmptyLine` | internal/proxy/proxy.go:648-703 | each read delivers the text lines it completes, behind one empty line iff it begins inside a CRLF |
| `Lines.TrueLinesAreTheText` | internal/proxy/proxy.go:648-703 | the lines completed by all reads are together the lines of the text (WHATWG HTML section 9.2.5) |
| `Lines.SeenLineCount` | internal/proxy/proxy.go:648-703 | every separated CRLF costs exactly one more line |
| `Lines.SeenLinesAreTheText` | internal/proxy/proxy.go:648-703 | without a separated CRLF the delivered lines are those of the text |
| `Lines.SeenLinesExactly` | internal/proxy/proxy.go:648-703 | the delivered lines are those of the text iff no read separates a CRLF |
| `Lines.TooLongAreLost` | internal/proxy/proxy.go:668-699 | exactly the lines counted as too long are delivered otherwise than they are, namely empty |
| `SseAssembler.SseEventAssembler.AddLine` | internal/proxy/proxy.go:764-807 | one line takes the assembler from state to state, with event and skip, as the step function says |
| `SseAssembler.SseEventAssembler.Flush` | internal/proxy/proxy.go:809-835 | an event end sends what waits and clears the overflow |
| `SseAssembler.SseEventAssembler.PendingPayload` | internal/proxy/proxy.go:860-879 | the loop joins the waiting lines with line feeds |
| `SseAssembler.SseEventAssembler.PendingPayloadComplete` | internal/proxy/proxy.go:837-847 | whether the joined lines are a complete payload |
| `SseAssembler.RunKeepsState` | internal/proxy/proxy.go:764-835 | after any lines the buffered size is the sum of the waiting lengths plus one each, within the limit, and an overflow leaves nothing waiting |
| `SseAssembler.LedgerHolds` | internal/proxy/proxy.go:764-879 | after any lines every emitted event is its own lines' payloads, joined in order, and the waiting lines are exactly those buffered |
| `SseAssembler.DataLinesOk` | internal/proxy/proxy.go:764-807 | the list of data lines the next row speaks of names every data line once, in order, and no other line |
| `SseAssembler.EveryLineOnce` | internal/proxy/proxy.go:764-835 | after any lines each data line is in exactly one event, still waiting, or dropped with an overflow, and no event is anything else |
| `SseAssembler.OrderKeptExactly` | internal/proxy/proxy.go:764-807 | lines are accounted for in the order they came iff no complete line overtakes waiting ones |
| `SseAssembler.CompleteLineOvertakes` | internal/proxy/proxy.go:764-807 | a complete line behind an unfinished one is sent before it |
| `SseAssembler.CompleteLinesPassThrough` | internal/proxy/proxy.go:764-807 | a stream of complete one-line payloads comes out as exactly those lines |
| `SseAssembler.DataLineRead` | internal/proxy/proxy.go:772-783 | an indented `data:` line is one, and its payload is what follows without one space in front |
| `SseAssembler.OnlyDataLines` | internal/proxy/proxy.go:772-775 | and no other line is one |
| `SseAssembler.CompleteExactly` | internal/proxy/proxy.go:784-796 | a line by itself is sent at once iff its payload is blank, `[DONE]` or valid JSON |
| `SseAssembler.CompletedBeforeNext` | internal/proxy/proxy.go:784-791 | what waits is sent before the next unfinished line iff together it is `[DONE]` or valid JSON |
| `SseAssembler.UnfinishedLinesJoin` | internal/proxy/proxy.go:764-835 | unfinished lines that fit wait together and are sent as one event at the blank line (WHATWG HTML section 9.2.6) |
| `SseAssembler.JoinedAndCut` | internal/proxy/proxy.go:860-879 | joined payloads cut at their line feeds are the payloads again |
| `SseAssembler.NoSkipNothingDropped` | internal/proxy/proxy.go:764-835 | a run counts no skip iff it has dropped no line |
| `SseAssembler.SkipsExactly` | internal/proxy/proxy.go:797-814 | the skips are twice the events that began to be dropped, less one while the blank line of the last is yet to come |
| `SseAssembler.OneDroppedEventTwoSkips` | internal/proxy/proxy.go:797-814 | two unfinished lines that do not fit together: nothing is sent and two skips are counted |
| `SseAssembler.BlankLineCutsAnEvent` | internal/proxy/proxy.go:764-807 | what a spurious blank line does to an event of two lines |
| `SseAssembler.BlankLineHarmless` | internal/proxy/proxy.go:764-807 | a blank line does nothing iff nothing waits and nothing is being dropped |
| `StreamMeter.Meter.ProcessSSEEvent` | internal/proxy/proxy.go:598-611 | parse errors and merged usage are those of all the events so far |
| `StreamMeter.Meter.ProcessPhysicalLine` | internal/proxy/proxy.go:612-620 | the assembler, the events and the skip count follow the delivered lines |
| `StreamMeter.Meter.KeepUnfinished` | internal/proxy/proxy.go:668-679 | the buffer holds the unfinished line while it fits; an overlong one is counted once |
| `StreamMeter.Meter.CompleteLine` | internal/proxy/proxy.go:680-699 | a completed line is delivered, empty when it is over the limit, and counted once |
| `StreamMeter.Meter.Read` | internal/proxy/proxy.go:665-703 | one read takes the meter from the state of the reads before it to that with it |
| `StreamMeter.Meter.Finish` | internal/proxy/proxy.go:621-627 | at the end events, skips, parse errors and usage are the function of the reads that the next rows are about |
| `StreamMeter.ReportedExactly` | internal/proxy/proxy.go:598-611 | the records merged are those of all the events that report usage, in order, and no others |
| `StreamMeter.MeteredTokens` | internal/proxy/proxy.go:597-627 | of any stream: the parse errors are the malformed events, there is a usage iff some event reports one, and its five token counts are each that of the last event that reports it |
| `StreamMeter.MeteredImages` | internal/proxy/proxy.go:597-627 | the same of the six image fields |
| `StreamMeter.MeteredTexts` | internal/proxy/proxy.go:597-627 | the same of the six text fields |
| `StreamMeter.MeteredAnthropic` | internal/proxy/proxy.go:597-627 | a metered stream whose first report has input and all others only output ends with that input, the last output, and their 64-bit sum |
| `StreamMeter.CutDoesNotMatter` | internal/proxy/proxy.go:597-703 | two cuts of the same bytes that separate no CRLF give the same events, skip count, parse errors and merged usage |
| `StreamMeter.SameData` | internal/proxy/proxy.go:597-703 | any cut whatsoever delivers the same data lines |
| `StreamMeter.LineSkipsIgnoreCuts` | internal/proxy/proxy.go:665-703 | overlong lines are counted the same for every cut |
| `StreamMeter.SkipsOfStream` | internal/proxy/proxy.go:597-703 | at the end of a stream the skips are two for every dropped event and one for every overlong line |
| `StreamMeter.QuietCutsDoNotMatter` | internal/proxy/proxy.go:597-703 | however a stream is cut, separated CRLFs included, its outcome is that of one read as long as at each of them nothing waits, or no data line comes before the next blank line |
| `StreamMeter.CompleteStreamsIgnoreEveryCut` | internal/proxy/proxy.go:597-703 | when every data line is complete by itself the whole outcome, skip count included, is that of the same bytes in one read, separated CRLFs included |
| `SideMerge.SideStore.ApplySideUsageEvent` | internal/db/db.go:1691-1809 | the transaction gives the status and the tables that the match function says |
| `SideMerge.SideStore.ProcessPayload` | internal/usagequeue/poller.go:251-262 | a payload is always stored, and matched only when merging is allowed and it is valid and has a request id |
| `SideMerge.SideStore.DeleteStaleSideUsageEvents` | internal/db/db.go:1637-1640 | exactly the events received before the cutoff go |
| `SideMerge.SideStore.InsertSideUsageEvent` | internal/db/db.go:1459-1482 | a stored event gets the next id |
| `SideMerge.SideStore.InsertRow` | internal/db/db.go:1060-1080 | a request row gets the next id |
| `SideMerge.EveryRunKeepsInv` | internal/db/db.go:1691-1809 | over every run of inserts, matches and deletions: one matched event per request id, matched event and row point at each other and agree, a live back pointer means matched |
| `SideMerge.MatchedPairsAgree` | internal/db/db.go:1691-1809 | what that says of a matched event: its row carries its id, request id, window and usage, and no other event of the request is matched |
| `SideMerge.StatusExactly` | internal/db/db.go:1691-1809 | each of the five statuses is given iff a condition on what exists in the tables holds |
| `SideMerge.OutcomeNames` | internal/db/db.go:1720-1808 | what is stored beside the status: a match or a conflict names the first row in the window, a conflict one whose usage clashes, a duplicate the row another event has or none; the rest name none, and no other event changes |
| `SideMerge.EveryRunNames` | internal/db/db.go:1720-1808 | over every run of the tables each live event goes on naming its row so, above all a conflict the row whose usage it clashes with |
| `SideMerge.ReapplyIsIdentity` | internal/db/db.go:1728-1808 | applying a matched event again changes nothing |
| `SideMerge.ReapplyExactly` | internal/db/db.go:1728-1808 | under any other timeout re-applying a matched event changes nothing iff its row is still the first in the window |
| `SideMerge.UnmatchedLeavesRows` | internal/db/db.go:1782-1808 | an event that does not end matched leaves every row as it was; one that does changes its first candidate only |
| `SideMerge.UsageWrittenOnce` | internal/db/db.go:1782-1808 | over any run a row's six token fields are those it was inserted with or, if it had none, those of exactly one event, written once |
| `SideMerge.SideEventSetOnce` | internal/db/db.go:1782-1808 | a row's side event goes from none to one and never to another |
| `SideMerge.ProvenanceExactly` | internal/db/db.go:1793-1806 | over any run a row's usage, source and model are as they were, or all from the one event that wrote the usage, except a model of its own |
| `SideMerge.WindowExactly` | internal/db/db.go:1734-1739 | the match window reaches as far before the event as behind it, ends included |
| `SideMerge.NoTokensExactly` | internal/db/db.go:1811-1814 | recorded usage is none only when all six counts are zero |
| `SideMerge.TimeoutDefaults` | internal/db/db.go:1734-1737 | a match timeout that is not positive is ten minutes |
| `SideMerge.WiderWindowLeavesTwoRows` | internal/db/db.go:1740-1768 | re-applying with a wider window, which the poller never does, moves the event to another row and leaves the old row pointing at it |
| `BatchWriter.EveryInterleavingKeepsInv` | internal/writer/writer.go:45-131 | in every interleaving: sent = handed on ++ batch ++ queue in order, every call is sent once or counted as dropped, the depth lags by the uncounted sends, the bounds hold |
| `BatchWriter.EveryInterleavingIsOrderly` | internal/writer/writer.go:59-121 | in every interleaving: events sent after the flag belong to distinct producers that waited at the flag, and past the drain the queue is what was sent since |
| `BatchWriter.StopDrains` | internal/writer/writer.go:59-121 | when Stop returns after a start, everything sent before the flag has been handed to the sink in order; the queue is exactly what was sent since the loop last found it empty; each event sent after the flag is that of a producer of its own that had read it as unset |
| `BatchWriter.StopEndsTheLoop` | internal/writer/writer.go:107-130 | once the stop channel is closed the loop takes no more than a bounded number of steps in any interleaving, and until it has ended it can always take one, whatever the sink answers |
| `BatchWriter.StopCanReturn` | internal/writer/writer.go:59-66 | some steps of the loop alone end it, within that bound, and the Stop after it returns |
| `BatchWriter.DoneIsForGood` | internal/writer/writer.go:107-130 | once the loop has ended no later step hands anything on or takes anything from the queue |
| `BatchWriter.QuietStopLeavesNothing` | internal/writer/writer.go:59-121 | with no such producer the queue is empty and everything sent was handed on |
| `BatchWriter.NothingPersistedTwice` | internal/writer/writer.go:90-105 | with a transactional sink no event is persisted twice, retry included, and without a write error all that was handed on is |
| `BatchWriter.EverythingIsFlushed` | internal/writer/writer.go:80-131 | while nobody stops it, a started loop hands on everything sent in a bounded number of its own steps, the ticker's above all, and with a sink that takes each batch at the first or second attempt counts no write error |
| `BatchWriter.RetryPersists` | internal/writer/writer.go:80-105 | a flush persists its batch when either attempt succeeds, counts one write error when both fail, and changes nothing else but the depth |
| `BatchWriter.BatchesAreFull` | internal/writer/writer.go:107-130 | without a tick and a drain only full batches leave the writer |
| `BatchWriter.DepthCanBeNegative` | internal/writer/writer.go:74-77 | an interleaving in which the depth counter is negative |
| `BatchWriter.LateSendStays` | internal/writer/writer.go:68-78 | an interleaving in which an event is accepted after the drain, and whatever follows never hands it on |
| `Pricing.ChargeGrows` | internal/pricing/pricing.go:1026-1054 | at a non-negative rate more tokens never cost less, and at a positive one more |
| `Pricing.TiersDoNotMix` | internal/pricing/pricing.go:705-727 | below the threshold the long rates do not show, and from it on the short ones do not |
| `Pricing.CostByRates` | internal/pricing/pricing.go:697-727 | the charge is that of the tokens of each of the five rates at the rate of the request's tier; cache writes and reasoning without a rate go with input and output |
| `Pricing.OneRateMatters` | internal/pricing/pricing.go:705-727 | two prices that differ in one rate of one tier: a request of that tier costs the tokens billed at the rate more, at the difference; one of the other tier the same |
| `Pricing.OneRateInText` | internal/pricing/pricing.go:697-703 | the same of the charge for a model in two configurations |
| `Pricing.WriteRateMoves` | internal/pricing/pricing.go:1026-1054 | setting a rate for cache writes moves them, and nothing else, from the input rate to it |
| `Pricing.ThinkingRateMoves` | internal/pricing/pricing.go:1036-1054 | setting a rate for reasoning charges it at the rate, in place of the output rate as far as it lies within the output |
| `Pricing.LongerIsNeverCheaper` | internal/pricing/pricing.go:697-727 | with a long-context tier no cheaper than the base one, a longer request never costs less for the same usage |
| `Pricing.CachingNeverCostsMore` | internal/pricing/pricing.go:1026-1074 | with cached input no dearer than regular input, reporting more of an input as cached never raises the price |
| `Pricing.MoreInputNeverCostsLess` | internal/pricing/pricing.go:1026-1074 | more input never costs less, given some input to begin with or enough to hold the cached tokens |
| `Pricing.ZeroInputBillsTheRest` | internal/pricing/pricing.go:1056-1074 | otherwise the request without input is charged in addition for exactly the cached and creation tokens that the input cuts off |
| `Pricing.MoreInputCostsLessExactly` | internal/pricing/pricing.go:1026-1074 | more input costs less iff there was none before and the new input cuts off cached or creation tokens that have a price |
| `Pricing.OneInputTokenMakesItCheap` | internal/pricing/pricing.go:1026-1074 | a request of a million cached tokens whose price falls to a millionth with one token of input |
| `Pricing.BreakdownConserves` | internal/pricing/pricing.go:1056-1074 | the parts of the input are non-negative and make up exactly a positive input; cache creation is served first, then cached input, and without an input both are billed as reported |
| `Pricing.CanonicalizeExactly` | internal/pricing/pricing.go:973-992 | a model name is shortened iff a date ends it, and then to what stands before the date |
| `Pricing.DatesExactly` | internal/pricing/pricing.go:994-1024 | the two forms of a date: year, month and day apart, or eight digits together |
| `Pricing.CanonicalizeUndoesDate` | internal/pricing/pricing.go:973-1024 | a date of either style behind a name is removed and nothing more |
| `Pricing.DatedNameResolves` | internal/pricing/pricing.go:848-871 | a dated name is priced as the name unless it is configured itself |
| `Pricing.SizesExactly` | internal/pricing/pricing.go:770-786 | which sizes are 1K and 2K, and which are the default or only stand in for it |
| `Pricing.ImagesPricedExactly` | internal/pricing/pricing.go:796-838 | all of a charge for images is priced iff the input price is configured, a free one included, and the size has an output price, where there are such images |
| `Pricing.OneSizeMatters` | internal/pricing/pricing.go:796-828 | raising the output price of one size raises what the output images of that size cost, by it, and nothing else |
| `Pricing.ImageInputMatters` | internal/pricing/pricing.go:796-828 | raising the input price raises what the input images cost, by it |
| `Pricing.OneTokenRateMatters` | internal/pricing/pricing.go:729-768 | text tokens of an image request are charged at the text rate of their direction, image and mixed ones at the image rate |
| `Pricing.TokenPricingExactly` | internal/pricing/pricing.go:902-912 | image requests of a model are billed by tokens iff some text or image rate is positive |
| `Aliases.CheckEntry` | internal/pricing/pricing.go:482-494 | the aliases of one entry are accepted iff new, non-empty and listed once, and are then recorded with their owner |
| `Aliases.ValidateAliasNamespace` | internal/pricing/pricing.go:474-498 | the verdict is that of the definition: every alias is a new, non-empty name with one owner |
| `Aliases.BuildAliasIndex` | internal/pricing/pricing.go:649-669 | the index has exactly the non-empty aliases, each with an owner of it |
| `Aliases.IndexIsUnique` | internal/pricing/pricing.go:649-669 | in an accepted namespace the index does not depend on the order of the walk and no alias hides an entry |
| `Aliases.ResolveExactly` | internal/pricing/pricing.go:848-871 | in an accepted namespace a name gets the price of its own entry, or of the entry whose alias it is, or of the entry it is a dated form of, and otherwise none |
| `CostBuckets.NormalisedCostsTheSame` | internal/db/cost.go:173-192 | clamping and splitting the input of a request beforehand leaves its price as it was |
| `CostBuckets.ClampCommutesExactly` | internal/pricing/pricing.go:1043-1051 | the regular output of a sum is at most the sum of the regular outputs, and the same iff the requests are not mixed |
| `CostBuckets.BucketCostExactly` | internal/pricing/pricing.go:697-703 | a bucket of one tier costs at most its requests one by one, and the same iff it does not mix at positive rates |
| `CostBuckets.TextBucketsExactly` | internal/db/cost.go:147-224 | all text buckets cost at most the requests in their own tiers, and the same iff no bucket mixes reasoning above output with reasoning below it |
| `CostBuckets.WithinOutputNeverLoses` | internal/pricing/pricing.go:1043-1051 | with reasoning within output everywhere no bucket mixes |
| `CostBuckets.MixingLosesMoney` | internal/db/cost.go:147-224 | two requests whose bucket is really cheaper than they are |
| `CostBuckets.CountsAreRequests` | internal/db/cost.go:193-224 | over all buckets each confidence count is the number of requests of that class |
| `CostBuckets.CountsExactly` | internal/db/cost.go:193-204 | and each of these classes said of a request: what makes it a conflict, side channel, request-only, unsupported, observed or missing |
| `CostBuckets.TallyOfRequests` | internal/db/cost.go:193-196 | a text bucket counts all of its requests, and those that report tokens |
| `CostBuckets.SixClassesCover` | internal/db/cost.go:193-204 | every request is in exactly one class |
| `Confidence.MatchDecidesClass` | internal/db/cost.go:164-204 | matching a new side event changes the class of one row at most: a conflict makes it a conflict, filled-in usage makes it side channel unless it has a conflict, all else changes none |
| `Confidence.ClassFromTables` | internal/db/cost.go:164-204 | the same from the tables before: the first row in the window becomes a conflict when its usage clashes, side channel when it had none, every other row keeps its class |
| `Confidence.ConflictsAreReal` | internal/db/cost.go:164-167 | in every run a request counted as a conflict is named by an event of its own, in its window, with clashing usage |
| `Confidence.SideChannelStays` | internal/db/cost.go:193-204 | over any further run a request filled from the side channel stays side channel, conflicts apart |
| `ImageBuckets.SplitConserves` | internal/db/cost.go:299-306 | regular and cached input are non-negative and make up exactly a positive input |
| `ImageBuckets.TallyCounts` | internal/db/cost.go:308-348 | what a bucket counts of its images: all, the failed, the partial images, and the successes without a count |
| `ImageBuckets.AmountByChannels` | internal/report/cost.go:173-185 | the token charge of an image request is that of its three channels, regular and cached, and of its three outputs |
| `ImageBuckets.DimensionAdds` | internal/pricing/pricing.go:729-768 | the charge for a token dimension is additive |
| `ImageBuckets.ImagesAdd` | internal/pricing/pricing.go:796-828 | the charge for images of one size is additive, unpriced sides included |
| `ImageBuckets.ImageCachingNeverCostsMore` | internal/pricing/pricing.go:729-744 | with cached input no dearer than regular input, reporting more of the input of an image request as cached, in any channel, never raises what its tokens cost |
| `ImageBuckets.MoreChannelInputCostsLessExactly` | internal/db/cost.go:299-306 | more input in a channel of an image request costs less iff there was none before and it is less than the cached tokens, which have a price |
| `ImageBuckets.BucketOfImages` | internal/report/cost.go:173-198 | the images of one bucket cost together what they cost one by one |
| `ImageBuckets.ImageBucketsExactly` | internal/db/cost.go:250-348 | all image buckets together cost what the requests' images cost, without exception |
| `ImageBuckets.OneOrTheOther` | internal/report/cost.go:131-150 | the price of a request is its image price when it is billed by images and otherwise its text price, and the two sums add up to it |
| `CostReport.FoldAmount` | internal/report/cost.go:122-202 | the amount of a cell is the sum of what its rows cost, in whatever order |
| `CostReport.FoldCounts` | internal/report/cost.go:229-249 | each count of a cell is the sum over its text rows |
| `CostReport.RegroupingConserves` | internal/report/cost.go:111-227 | for every grouping the cells add up to the ungrouped amount and to each ungrouped count |
| `CostReport.GroupsExactly` | internal/report/cost.go:212-227 | rows share a cell iff they agree in every column that the report groups by |
| `CostReport.BillableExactly` | internal/report/cost.go:311-321 | a bucket is billable unless everything it could be billed for is zero |
| `CostReport.ReportAgainstRequests` | internal/report/cost.go:111-227 | for every grouping the cells add up to at most the requests priced one by one, and to exactly that iff no text bucket mixes |
| `CostReport.ReportIsTheRequests` | internal/report/cost.go:111-227 | when no request reports more reasoning than output every report adds up to the requests priced one by one |
| `CostReport.ReportCountsRequests` | internal/report/cost.go:111-249 | the six counts of the cells add up to the number of requests |
| `CostRefinement.ExcessOfParts` | internal/pricing/pricing.go:1043-1051 | the regular output a bucket loses is at least what its parts lose, and the same iff no part has more output than reasoning while another has less |
| `CostRefinement.RefiningNeverLowers` | internal/db/cost.go:127-225 | grouping by more columns never lowers the text total, and keeps it iff no coarse bucket mixes such parts at positive rates |
| `CostRefinement.SummaryAgainstSeries` | internal/report/usage.go:22-52 | over the same requests a summary is at most its time series, and the same iff no bucket of it mixes such parts |
| `CostRefinement.SeriesDearerThanSummary` | internal/report/usage.go:22-52 | two requests whose summary is really cheaper than their time series |
| `CostShortfall.MissingExactly` | internal/report/cost.go:251-265 | the missing usage of a cell is that of the requests counted as missing plus the shortfall of each model by itself, as a sum over its rows |
| `CostShortfall.RegroupingCanMissMore` | internal/report/cost.go:111-265 | where image requests share a cell with their image rows, the cells miss at least what the ungrouped report misses, and the same iff no model lacks usage in one cell and has more than expected in another |
| `CostShortfall.RequestsAreCovered` | internal/db/cost.go:127-348 | rows folded from requests are of that kind |
| `CostShortfall.ReportCanMissMore` | internal/report/cost.go:111-265 | so the cells of a report over stored requests miss at least what the ungrouped report misses, and the same iff no model is so offset |
| `CostShortfall.SummaryHidesMissing` | internal/report/cost.go:251-265 | two image requests of different keys: a cell by key misses one, the ungrouped report none |
| `CostReport.UnpricedExactly` | internal/report/cost.go:131-202 | exactly which models a cell lists as unpriced |
| `CostReasons.ReasonsExactly` | internal/report/cost.go:122-265 | a cell has a reason iff a row of it gives it: unpriced models, the classes its text rows count, missing output counts, defaulted sizes of priced images, missing usage of its images; a failed query never |
| `CostReasons.RequestsGive` | internal/report/cost.go:229-249 | text rows give a reason iff some request is of a class that does |
| `CostReport.UnpricedSurvivesGrouping` | internal/report/cost.go:111-202 | a model unpriced in the ungrouped report is unpriced in some cell of every grouping |
| `CostReport.UnpricedInCellsExactly` | internal/report/cost.go:111-202 | a model is unpriced in some cell iff it is in the ungrouped report or its fallback images are in a cell without a priced text row of it |
| `CostReport.GroupingKeepsUnpriced` | internal/report/cost.go:111-202 | for requests with at most one image row, as stored, and operations shown only when queried, a model is unpriced in some cell iff it is in the ungrouped report |
| `CostReport.GroupingCanUnprice` | internal/report/cost.go:161-171 | one request with two image rows of different operations, which the writer never stores, has a cell listing a model that the ungrouped report prices |
| `CostReport.ResultMeans` | internal/report/cost.go:279-309 | cost known, the number of unpriced models and the unpriced reason agree, and a cell is complete iff it has no reason |
| `CostEvaluation.CostAccumulator.AddConfidence` | internal/report/cost.go:229-249 | the counts and their reasons are added |
| `CostEvaluation.CostAccumulator.AddImageDimension` | internal/report/cost.go:267-277 | a positive dimension is charged or marks its model unpriced |
| `CostEvaluation.CostAccumulator.AddTextRow` | internal/report/cost.go:122-151 | one text row takes a cell to the next value of the fold |
| `CostEvaluation.CostAccumulator.AddImageRow` | internal/report/cost.go:153-202 | one image row takes a cell to the next value of the fold |
| `CostEvaluation.CostAccumulator.FinalizeImageCompleteness` | internal/report/cost.go:251-265 | the missing usage grows by the shortfall over all models, whatever the order of the walk |
| `CostEvaluation.CostAccumulator.Result` | internal/report/cost.go:289-309 | the loop lists the reasons in their fixed order |
| `CostEvaluation.EvaluateCostBuckets` | internal/report/cost.go:111-210 | the report has a cell for exactly the groups with rows, each the finished fold of its own rows |
| `ResponsesState.ResponsesStreamState.ProcessSSEEvent` | internal/extractor/responses_state.go:65-134 | one event takes the tracker to the next state of the run |
| `ResponsesState.ResponsesStreamState.Result` | internal/extractor/responses_state.go:147-270 | the answer is that of the verdict, and only the remembered usage changes |
| `ResponsesState.RunSummarises` | internal/extractor/responses_state.go:65-134 | after any events the flags and counters say which events occurred, and the usage object, models, reason and error fields kept are the last of their kind |
| `ResponsesState.CountersExactly` | internal/extractor/responses_state.go:65-134 | the tracker counts the texts over a mebibyte or not decodable, the partial images, and the images of the last event that made some |
| `ResponsesState.ResultFollowsPrecedence` | internal/extractor/responses_state.go:147-270 | for every sequence of events outcome, reason and terminal event follow: token usage, parse error, completed, incomplete, failed or error, created, none |
| `ResponsesState.UsageExactly` | internal/extractor/responses_state.go:151-231 | for every sequence of events a usage is reported iff the stream ends as captured, and that iff the last usage object has tokens, or a completed and throughout readable stream made images |
| `ResponsesState.ReportedUsage` | internal/extractor/responses_state.go:151-231 | its five token fields are the non-negative parts of the last usage object's, or none; its image count that of the last event that made images, its partial images all of them counted, and the operation is set iff there are any |
| `ResponsesState.ModelFollowsPrecedence` | internal/extractor/responses_state.go:65-270 | for every sequence of events the model and its source follow an order of precedence over the kinds of events, each kind by the last of its events that names a model |
| `ResponsesState.ErrorFollowsPrecedence` | internal/extractor/responses_state.go:65-270 | for every sequence of events the terminal reason, the error class and the error fields are those of the last events that tell, in the endings that have them |
| `ResponsesState.OrderMattersOnlyForCompleted` | internal/extractor/responses_state.go:65-270 | reordering events changes none of them as long as the completed events keep their order |
| `ResponsesState.AskingTwice` | internal/extractor/responses_state.go:151-179 | asking twice gives the same answer and state |
| `ResponsesState.AskingEarlyShowsExactly` | internal/extractor/responses_state.go:151-165 | an early question shows in the final answer iff it found tokens that the end no longer has |
| `ResponsesState.AskingEarlyCanShow` | internal/extractor/responses_state.go:151-165 | two completed events between which a question changes the final outcome; the proxy asks once |
| `Resp.WriteRESPCommand` | internal/usagequeue/poller.go:375-385 | the loop writes the header and every argument in order |
| `Resp.Reader.ReadRESPLine` | internal/usagequeue/poller.go:424-430 | a line without its end, and the rest of the stream |
| `Resp.Reader.ReadRESP` | internal/usagequeue/poller.go:387-422 | one reply and what is left of the stream, error replies and malformed input included |
| `Resp.NumberOfDigits` | internal/usagequeue/poller.go:376-380 | reading a printed length gives the length |
| `Resp.ReadUndoesBulk` | internal/usagequeue/poller.go:387-422 | a written argument of any bytes is read back and what follows it stays |
| `Resp.CommandRoundTrip` | internal/usagequeue/poller.go:375-422 | the header line gives the count, that many reads give the arguments in order, and following bytes are unread |
| `Resp.PayloadIsFramed` | internal/usagequeue/poller.go:399-418 | a payload that is read has its announced length between header and terminator, and nothing is read past it |
| `Resp.TruncatedBulkFails` | internal/usagequeue/poller.go:399-418 | an argument cut anywhere before its end is an end-of-stream error and nothing else |
| `Resp.LinesAreRead` | internal/usagequeue/poller.go:382-411 | a negative length is an empty queue, a `+` line a payload, a `-` line an error with its text, and the rest of the stream stays |
| `Resp.BadBulksFail` | internal/usagequeue/poller.go:399-418 | a length that is no number and a payload without its terminator are errors, and the stream goes on behind |
| `Resp.HugeLengthFails` | internal/usagequeue/poller.go:399-407 | so is a length that does not fit in 64 bits |
| `Resp.RepliesExactly` | internal/usagequeue/poller.go:377-422 | which kinds of reply each first byte can give, and that only a negative length is an empty queue |
| `Singleflight.EveryInterleavingKeepsInv` | internal/credential/poller.go:405-434 | in every interleaving the flag is set iff exactly one caller, one token or the loop holds the refresh, and accepted = completed + held |
| `Singleflight.SendFindsRoom` | internal/credential/poller.go:419-422 | a caller about to send finds the channel empty, so that the default branch is never taken |
| `Singleflight.CallExactly` | internal/credential/poller.go:405-418 | a call is turned away iff an accepted refresh is not done yet or the last accepted call is less than the interval ago |
| `Singleflight.AcceptedCallsAreSpaced` | internal/quota/poller.go:550-568 | accepted calls are at least the minimum interval apart, pairwise |
| `Singleflight.PendingStepsServe` | internal/credential/poller.go:58-76 | while the loop lives the pending steps are possible and complete every accepted refresh |
| `Singleflight.AfterExit` | internal/quota/poller.go:81-96 | after the loop has exited nothing completes, and a refresh left in flight keeps out every later call |
| `Timeline.ErrorTimelineReport` | internal/db/issues_report.go:100-146 | the loop gives a row for each sample of the period, with the baseline rule for the first |
| `Timeline.RowsExactly` | internal/db/issues_report.go:108-146 | every row has the timestamp of its sample, is a delta to the sample before, and lacks a baseline iff it is the first and there is no sample before the period |
| `Timeline.EmptyExactly` | internal/db/issues_report.go:108-146 | nothing is reported iff there is no sample or only the baseline |
| `Timeline.GapExactly` | internal/db/db.go:1413-1418 | a delta never exceeds the growth between two samples, and equals it iff there was no restart, or one that forgot nothing and is seen as one |
| `Timeline.RestartCanBeMissed` | internal/db/db.go:1413-1418 | a restart behind which five errors happen and two are reported |
| `Timeline.ReportExactly` | internal/db/issues_report.go:108-146 | summed deltas never exceed the true increments, and equal them iff every gap is counted in full |
| `Timeline.WithoutRestartTelescopes` | internal/db/issues_report.go:108-146 | without a restart they are the last sample minus the first |
| `TimelineMerge.GatherRows` | internal/report/errors.go:138-161 | the map holds for every key seen its points joined |
| `TimelineMerge.CombineErrorTimelines` | internal/report/errors.go:138-170 | strictly ascending timestamps, one point per key, each the join of its points |
| `TimelineMerge.MergingConserves` | internal/report/errors.go:138-170 | every column total is conserved and no timestamp occurs twice |
| `TimelineMerge.RowsByTimestamp` | internal/report/errors.go:138-170 | there is one row for every timestamp that a point has, with the totals of exactly the points that have it, and at most one more, of the points without |
| `TimelineMerge.JoinedTotal` | internal/report/errors.go:153-160 | a joined point has the totals of its points, and a missing baseline iff one of them had |

## Left out

- HTTP transport, TLS, headers, redirects, contexts, logging, the web interface, the command line, health and metrics text.
- SQLite: every transaction is one atomic step with growing ids, and no database error occurs in it. Column expressions that only name a group (time bucket, key, model, operation) and the `WHERE` clause of a cost query are taken as evaluated.
- `encoding/json`, white-space trimming and multipart parsing are function parameters of the model; only the hand-written scanner is modelled byte by byte. `topLevelJSONBool` and `topLevelJSONFieldPresent` are not part of this model.
- Parsing of the queue's payloads into events, hashing of credentials and the content of a refresh.
- Floating-point rounding: money is `real`.
- `Pricing`: reading and validating the YAML file. That prices are not negative is the predicate `PricesOk`, which the cost theorems require of a loaded file. Audio and per-second prices are not modelled.
- Image sizes are compared without case in ASCII only.
- `Aliases.ValidateAliasNamespace`: one namespace; the text and the multimodal one are validated by the same loop over different entries. Aliases are taken as trimmed, and the error text is left out.
- `JsonPrint.SkipValueInvertsPrint`: numbers and literal names are any bytes without structure, which is wider than RFC 8259 and as wide as the scanner.
- `BodyReader.ReadBodyPrefix`: a read error counts as the end of the body.
- `BodyReader.CountingReader.Read`: `bytesRead` is unbounded, as are the other byte counts.
- `SampleBuffer.PrefixTailBuffer.Write`: the prefix is a sequence; that Go's `append` may share its array with the caller is not modelled.
- `StreamMeter.Meter.Read`: the sampler of error payloads and the Responses tracker, which get the same events, and the aliasing of a line with the read buffer. The wait between reads, a client that goes away and a failed write end the loop as the end of the stream does.
- `StreamMeter.Meter.Finish`: the choice of the final usage and capture outcome from the metered usage, the tracker and the parse errors. The partial image count of the final usage counts events twice there and is not the number of events.
- `SideMerge.EveryRunKeepsInv`: one match timeout for a whole run, as it is a configuration value. `UpdateSideUsageEventMatchStatus` and `UpdateRequestUsageFromSideEvent` are not steps: the poller does not call them.
- `SideMerge.SideStore.InsertRow`: the other columns of a row, its image rows and dimensions.
- `BatchWriter.StopDrains`: the Stop that sets the flag; a second Stop returns at once and promises nothing. The channel has room (the configuration does not allow an unbuffered one), so that a send never waits for the loop.
- `BatchWriter.StopEndsTheLoop`: a tick with an empty batch does nothing and is not counted as a step; Stop also stops the ticker (internal/writer/writer.go:64), which the model does not, so that the loop meets at most one more of them.
- `BatchWriter.NothingPersistedTwice`: the sink is transactional, and the pause before the retry is left out.
- `Singleflight.EveryInterleavingKeepsInv`: one loop per poller; the clean-up ticker, which shares nothing with the protocol, and an unset last refresh counting as long ago.
- `ResponsesState.ResultFollowsPrecedence`: events are taken behind their `data:` prefixes; the mutex makes every call one step. The type of the last event is recorded in the code and never read.
- `Resp.WriteRESPCommand`: failing writes. Reading the header line with a number is what the peer does.
- `Resp.Reader.ReadRESP`: a buffer of the announced length is always available.
- `Confidence.MatchDecidesClass`: the text buckets' classes only; image buckets use the same conditions with the image dimensions.
- `CostBuckets.TextBucketsExactly`: token sums are unbounded; SQLite fails on a sum over 64 bits.
- `CostEvaluation.EvaluateCostBuckets`: counts are unbounded, and one error path, a failed cost query, is left out.
- `TimelineMerge.CombineErrorTimelines`: the library sort is modelled by insertion.
- `Timeline.ErrorTimelineReport`: which samples the query selects; the method gets them in its order.
