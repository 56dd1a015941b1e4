/**
 The metering of a forwarded event stream: reads are cut into lines, lines are put
 together into events, and the usage in the events is merged.  All of it is a
 function of the text, however the text is cut into reads, as long as no read
 separates the CR and the LF of one line break.
 */
module StreamMeter {
  import opened Bytes
  import Lines
  import opened SseAssembler
  import opened Usage

  /** What the stream extractor makes of one event. */
  datatype Extraction = Silent | Reports(usage: UsageInfo) | Malformed

  datatype Config = Config(maxLine: nat, probe: Probe, extract: seq<byte> -> Extraction)

  /** What a stream leaves behind. */
  datatype Outcome = Outcome(events: seq<seq<byte>>, skips: nat, parseErrors: nat, usage: Option<UsageInfo>)

  function Reported(c: Config, events: seq<seq<byte>>): seq<UsageInfo> {
    if events == [] then []
    else
      var n := |events| - 1;
      Reported(c, events[..n]) + match c.extract(events[n]) { case Reports(u) => [u] case _ => [] }
  }

  function ParseErrors(c: Config, events: seq<seq<byte>>): nat {
    if events == [] then 0
    else
      var n := |events| - 1;
      ParseErrors(c, events[..n]) + if c.extract(events[n]).Malformed? then 1 else 0
  }

  /** Lines as the assembler gets them. */
  function Delivered(c: Config, pieces: seq<seq<byte>>): seq<seq<byte>> {
    Lines.ClipAll(c.maxLine, Lines.SeenLines(pieces))
  }

  /** Lines over the limit, an unfinished one included, each counted once. */
  function LineSkips(c: Config, pieces: seq<seq<byte>>): nat {
    Lines.TooLong(c.maxLine, Lines.SeenLines(pieces)) + if |Lines.Pending(pieces)| > c.maxLine then 1 else 0
  }

  /** What waits is sent, or what is being dropped ends. */
  function Flushed(r: Run): Run { After(r, FlushStep(r.state)) }

  function Finished(c: Config, r: Run, skips: nat): Outcome {
    var last := Flushed(r);
    Outcome(last.events, last.skips + skips, ParseErrors(c, last.events), MergeAll(Reported(c, last.events)))
  }

  /** The outcome of a stream that arrived in these reads. */
  function Metered(c: Config, pieces: seq<seq<byte>>): Outcome {
    Finished(c, RunLines(c.probe, c.maxLine, Delivered(c, pieces)), LineSkips(c, pieces))
  }

  // ---------- the loop ----------

  class Meter {
    const c: Config
    const assembler: SseEventAssembler
    var lineBuf: seq<byte>
    var lineOverflow: bool
    var skips: nat
    var parseErrors: nat
    var lastUsage: Option<UsageInfo>
    ghost var lines: seq<seq<byte>>
    ghost var pending: seq<byte>
    ghost var events: seq<seq<byte>>
    ghost var lineSkips: nat

    /** The buffer holds the unfinished line while it fits. */
    ghost predicate BufferOk()
      reads this
    {
      lineBuf == Lines.Clip(c.maxLine, pending) && lineOverflow == (|pending| > c.maxLine)
    }

    /** The lines delivered so far have been put together and metered. */
    ghost predicate EventsOk()
      reads this, assembler
    {
      && assembler.probe == c.probe && assembler.maxBytes == c.maxLine
      && lineSkips <= skips
      && RunLines(c.probe, c.maxLine, lines) == Run(assembler.View(), events, skips - lineSkips)
      && parseErrors == ParseErrors(c, events) && lastUsage == MergeAll(Reported(c, events))
    }

    /** The meter is what the reads `pieces` make it. */
    ghost predicate ReflectsReads(pieces: seq<seq<byte>>)
      reads this, assembler
    {
      && BufferOk() && EventsOk()
      && pending == Lines.Pending(pieces)
      && lines == Delivered(c, pieces) && lineSkips == LineSkips(c, pieces)
    }

    constructor (c: Config)
      requires c.maxLine > 0
      ensures ReflectsReads([]) && this.c == c && fresh(assembler)
    {
      this.c := c;
      assembler := new SseEventAssembler(c.probe, c.maxLine);
      lineBuf, lineOverflow, skips, parseErrors, lastUsage := [], false, 0, 0, None;
      lines, pending, events, lineSkips := [], [], [], 0;
    }

    method ProcessSSEEvent(line: seq<byte>)
      requires parseErrors == ParseErrors(c, events) && lastUsage == MergeAll(Reported(c, events))
      modifies this`parseErrors, this`lastUsage, this`events
      ensures events == old(events) + [line]
      ensures parseErrors == ParseErrors(c, events) && lastUsage == MergeAll(Reported(c, events))
    {
      ghost var before := events;
      events := events + [line];
      assert events[..|before|] == before;
      assert Reported(c, before) + [] == Reported(c, before);
      match c.extract(line)
      case Malformed => parseErrors := parseErrors + 1;
      case Reports(u) =>
        lastUsage := Some(Merge(lastUsage, u));
        assert (Reported(c, before) + [u])[..|Reported(c, before)|] == Reported(c, before);
      case Silent =>
    }

    method ProcessPhysicalLine(line: seq<byte>)
      requires EventsOk()
      modifies this`skips, this`parseErrors, this`lastUsage, this`lines, this`events, assembler
      ensures EventsOk() && lines == old(lines) + [line]
    {
      hide RunLines, LineStep, MergeAll, Reported, ParseErrors;
      RunSnoc(c.probe, c.maxLine, lines, line);
      lines := lines + [line];
      var event, skipped := assembler.AddLine(line);
      if skipped {
        skips := skips + 1;
      }
      if |event| > 0 {
        ProcessSSEEvent(event);
      }
    }

    /** The piece of a line that ends a read: it is kept while the line fits. */
    method KeepUnfinished(chunk: seq<byte>)
      requires BufferOk()
      modifies this`lineBuf, this`lineOverflow, this`skips, this`pending, this`lineSkips
      ensures BufferOk() && pending == old(pending) + chunk
      ensures skips - old(skips) == lineSkips - old(lineSkips)
           == if |old(pending)| <= c.maxLine < |pending| then 1 else 0
    {
      pending := pending + chunk;
      if !lineOverflow {
        if |lineBuf| + |chunk| <= c.maxLine {
          lineBuf := lineBuf + chunk;
        } else {
          skips, lineSkips := skips + 1, lineSkips + 1;
          lineOverflow := true;
          lineBuf := [];
        }
      }
    }

    /** The line that a break in the read completes, empty when it is over the limit. */
    method CompleteLine(rest: seq<byte>) returns (line: seq<byte>)
      requires BufferOk()
      modifies this`lineBuf, this`lineOverflow, this`skips, this`pending, this`lineSkips
      ensures BufferOk() && pending == [] && line == Lines.Clip(c.maxLine, old(pending) + rest)
      ensures skips - old(skips) == lineSkips - old(lineSkips)
           == if |old(pending)| <= c.maxLine < |old(pending) + rest| then 1 else 0
    {
      line := [];
      if lineOverflow {
        lineOverflow := false;
        lineBuf := [];
      } else if |lineBuf| > 0 {
        if |lineBuf| + |rest| <= c.maxLine {
          line := lineBuf + rest;
        } else {
          skips, lineSkips := skips + 1, lineSkips + 1;
        }
        lineBuf := [];
      } else if |rest| <= c.maxLine {
        line := rest;
      } else {
        skips, lineSkips := skips + 1, lineSkips + 1;
      }
      pending := [];
    }

    /** The meter stands inside a read: `seen` are the lines up to here. */
    ghost predicate InRead(seen: seq<seq<byte>>)
      reads this, assembler
    {
      && BufferOk() && EventsOk()
      && lines == Lines.ClipAll(c.maxLine, seen)
      && lineSkips == Lines.TooLong(c.maxLine, seen) + if |pending| > c.maxLine then 1 else 0
    }

    /** The next line of a read, its break at `nl`. */
    method ReadLine(chunk: seq<byte>, nl: nat, ghost seen: seq<seq<byte>>)
      requires InRead(seen) && nl <= |chunk|
      modifies this, assembler
      ensures pending == [] && InRead(seen + [old(pending) + chunk[..nl]])
    {
      hide Lines.ClipAll, Lines.TooLong, RunLines, MergeAll, Reported, ParseErrors;
      OneMoreLine(c.maxLine, seen, pending + chunk[..nl]);
      var line := CompleteLine(chunk[..nl]);
      ProcessPhysicalLine(line);
    }

    /** One read, cut at the line breaks found in it. */
    method Read(piece: seq<byte>, ghost pieces: seq<seq<byte>>)
      requires ReflectsReads(pieces)
      modifies this, assembler
      ensures ReflectsReads(pieces + [piece])
    {
      hide Lines.ClipAll, Lines.TooLong, Lines.SeenLines, Lines.Pending, Lines.LinesOf, Lines.Rest, Lines.NoBreak,
           RunLines, MergeAll, Reported, ParseErrors, InText;
      ghost var text := pending + piece;
      ghost var before := Lines.SeenLines(pieces);
      ghost var seen := before;
      var chunk := piece;
      ReadBegins(before, pending, piece);
      assert InRead(seen);
      while |chunk| > 0
        invariant InRead(seen) && InText(text, before, seen, pending, chunk)
        decreases |chunk|
      {
        var nl := Lines.BreakAt(chunk);
        if nl == |chunk| {
          LineGoesOn(text, before, seen, pending, chunk);
          KeepUnfinished(chunk);
          chunk := [];
          break;
        }
        LineEnds(text, before, seen, pending, chunk);
        ghost var line := pending + chunk[..nl];
        ReadLine(chunk, nl, seen);
        seen := seen + [line];
        chunk := chunk[nl + Lines.BreakWidth(chunk, nl)..];
      }
      ReadEnds(text, before, seen, pending);
      OneMoreRead(pieces, piece);
    }

    /** The end of the stream: what still waits is sent, an unfinished line is not. */
    method Finish(ghost pieces: seq<seq<byte>>)
      requires ReflectsReads(pieces)
      modifies this, assembler
      ensures Outcome(events, skips, parseErrors, lastUsage) == Metered(c, pieces)
    {
      var event, skipped := assembler.Flush();
      if skipped {
        skips := skips + 1;
      } else if |event| > 0 {
        ProcessSSEEvent(event);
      }
    }
  }

  lemma OneMoreRead(pieces: seq<seq<byte>>, piece: seq<byte>)
    ensures var text := Lines.Pending(pieces) + piece;
      && Lines.Pending(pieces + [piece]) == Lines.Rest(text)
      && Lines.SeenLines(pieces + [piece]) == Lines.SeenLines(pieces) + Lines.LinesOf(text)
  {
    assert (pieces + [piece])[..|pieces|] == pieces;
  }

  /** Part of a read is done: `seen'` are the lines up to now, `pending + chunk` is still text. */
  ghost predicate InText(text: seq<byte>, seen: seq<seq<byte>>, seen': seq<seq<byte>>, pending: seq<byte>, chunk: seq<byte>) {
    && Lines.NoBreak(pending)
    && seen + Lines.LinesOf(text) == seen' + Lines.LinesOf(pending + chunk)
    && Lines.Rest(text) == Lines.Rest(pending + chunk)
  }

  lemma ReadBegins(seen: seq<seq<byte>>, pending: seq<byte>, chunk: seq<byte>)
    requires Lines.NoBreak(pending)
    ensures InText(pending + chunk, seen, seen, pending, chunk)
  {}

  lemma ReadEnds(text: seq<byte>, seen: seq<seq<byte>>, seen': seq<seq<byte>>, pending: seq<byte>)
    requires InText(text, seen, seen', pending, [])
    ensures pending == Lines.Rest(text) && seen' == seen + Lines.LinesOf(text)
  {
    assert pending + [] == pending;
    Lines.NoBreakOneLine(pending);
    assert seen' + [] == seen';
  }

  lemma LineGoesOn(text: seq<byte>, seen: seq<seq<byte>>, seen': seq<seq<byte>>, pending: seq<byte>, chunk: seq<byte>)
    requires InText(text, seen, seen', pending, chunk) && Lines.BreakAt(chunk) == |chunk|
    ensures InText(text, seen, seen', pending + chunk, [])
  {
    assert chunk[..|chunk|] == chunk;
    assert pending + chunk + [] == pending + chunk;
  }

  lemma LineEnds(text: seq<byte>, seen: seq<seq<byte>>, seen': seq<seq<byte>>, pending: seq<byte>, chunk: seq<byte>)
    requires InText(text, seen, seen', pending, chunk) && Lines.BreakAt(chunk) < |chunk|
    ensures var nl := Lines.BreakAt(chunk); var next := chunk[nl + Lines.BreakWidth(chunk, nl)..];
      InText(text, seen, seen' + [pending + chunk[..nl]], [], next)
  {
    hide InText;
    InTextIsLine(text, seen, seen', pending, chunk);
    FirstLine(pending, chunk);
    LineTaken(text, seen, seen', pending, chunk, pending + chunk[..Lines.BreakAt(chunk)],
              chunk[Lines.BreakAt(chunk) + Lines.BreakWidth(chunk, Lines.BreakAt(chunk))..]);
  }

  lemma InTextIsLine(text: seq<byte>, seen: seq<seq<byte>>, seen': seq<seq<byte>>, pending: seq<byte>, chunk: seq<byte>)
    requires InText(text, seen, seen', pending, chunk)
    ensures Lines.NoBreak(pending)
  {}

  lemma LineTaken(text: seq<byte>, seen: seq<seq<byte>>, seen': seq<seq<byte>>, pending: seq<byte>, chunk: seq<byte>,
                  line: seq<byte>, next: seq<byte>)
    requires InText(text, seen, seen', pending, chunk)
    requires Lines.LinesOf(pending + chunk) == [line] + Lines.LinesOf(next)
    requires Lines.Rest(pending + chunk) == Lines.Rest(next)
    ensures InText(text, seen, seen' + [line], [], next)
  {
    hide Lines.LinesOf, Lines.Rest;
    assert [] + next == next;
    assert seen' + ([line] + Lines.LinesOf(next)) == seen' + [line] + Lines.LinesOf(next);
  }

  lemma FirstLine(pending: seq<byte>, chunk: seq<byte>)
    requires Lines.NoBreak(pending) && Lines.BreakAt(chunk) < |chunk|
    ensures var nl := Lines.BreakAt(chunk); var next := chunk[nl + Lines.BreakWidth(chunk, nl)..];
      && Lines.LinesOf(pending + chunk) == [pending + chunk[..nl]] + Lines.LinesOf(next)
      && Lines.Rest(pending + chunk) == Lines.Rest(next)
  {
    hide Lines.BreakAt, Lines.NoBreak;
    var nl := Lines.BreakAt(chunk);
    var t := pending + chunk;
    Lines.BreakAtShift(pending, chunk);
    assert Lines.BreakWidth(t, |pending| + nl) == Lines.BreakWidth(chunk, nl);
    assert t[..|pending| + nl] == pending + chunk[..nl];
    assert Lines.Following(t) == chunk[nl + Lines.BreakWidth(chunk, nl)..];
  }

  lemma OneMoreLine(maxLine: nat, seen: seq<seq<byte>>, line: seq<byte>)
    ensures Lines.ClipAll(maxLine, seen + [line]) == Lines.ClipAll(maxLine, seen) + [Lines.Clip(maxLine, line)]
    ensures Lines.TooLong(maxLine, seen + [line])
         == Lines.TooLong(maxLine, seen) + if |line| > maxLine then 1 else 0
  {
    Lines.TooLongAppend(maxLine, seen, [line]);
    assert [line][1..] == [];
  }

  // ---------- what the outcome reports ----------

  /** The k-th event reports usage. */
  predicate ReportsAt(c: Config, events: seq<seq<byte>>, k: int) {
    0 <= k < |events| && c.extract(events[k]).Reports?
  }

  function UsageAt(c: Config, events: seq<seq<byte>>, k: int): UsageInfo
    requires ReportsAt(c, events, k)
  {
    c.extract(events[k]).usage
  }

  /** `at` are the events that report usage, in order. */
  ghost predicate ListsReports(c: Config, events: seq<seq<byte>>, at: seq<nat>) {
    && Increasing(at)
    && (forall k: nat :: k in at <==> ReportsAt(c, events, k))
  }

  /** The merged records are those of all the events that report usage, in order, and of no other. */
  lemma {:induction false} ReportedExactly(c: Config, events: seq<seq<byte>>) returns (at: seq<nat>)
    ensures ListsReports(c, events, at) && |at| == |Reported(c, events)|
    ensures forall i | 0 <= i < |at| :: ReportsAt(c, events, at[i]) && Reported(c, events)[i] == UsageAt(c, events, at[i])
  {
    if events == [] {
      at := [];
    } else {
      var n := |events| - 1;
      var before := ReportedExactly(c, events[..n]);
      forall k: nat ensures ReportsAt(c, events[..n], k) <==> ReportsAt(c, events, k) && k < n {}
      at := before + if c.extract(events[n]).Reports? then [n] else [];
      forall k: nat ensures k in at <==> ReportsAt(c, events, k) {}
      forall i | 0 <= i < |before| ensures before[i] < n { assert before[i] in before; }
    }
  }

  /** `value` is what the last event reports whose report fills the field; none if no event does. */
  ghost predicate LastReport<T(!new)>(c: Config, events: seq<seq<byte>>, field: UsageInfo -> T, none: T, value: T) {
    || (value == none && forall k | ReportsAt(c, events, k) :: field(UsageAt(c, events, k)) == none)
    || (value != none && exists k ::
          ReportsAt(c, events, k) && field(UsageAt(c, events, k)) == value
          && forall j | k < j && ReportsAt(c, events, j) :: field(UsageAt(c, events, j)) == none)
  }

  /** The last filled value of some records, at its place. */
  ghost predicate LastAt<T(!new)>(records: seq<UsageInfo>, field: UsageInfo -> T, none: T, value: T) {
    || (value == none && forall i | 0 <= i < |records| :: field(records[i]) == none)
    || (value != none && exists i ::
          0 <= i < |records| && field(records[i]) == value && forall j | i < j < |records| :: field(records[j]) == none)
  }

  lemma LastStays<T(!new)>(records: seq<UsageInfo>, u: UsageInfo, field: UsageInfo -> T, none: T, value: T)
    requires LastAt(records, field, none, value)
    ensures LastAt(records + [u], field, none, if field(u) != none then field(u) else value)
  {
    var all := records + [u];
    assert all[|records|] == u;
    if field(u) == none && value != none {
      var i :| 0 <= i < |records| && field(records[i]) == value && forall j | i < j < |records| :: field(records[j]) == none;
      assert field(all[i]) == value;
    }
  }

  lemma {:induction false} LastNumber(records: seq<UsageInfo>, f: UsageInfo -> int64)
    ensures LastAt(records, f, 0, LastNonzero(records, f))
  {
    hide LastAt;
    if records == [] {
      assert LastAt(records, f, 0, 0) by { NoneIsLast(f, 0); }
    } else {
      var n := |records| - 1;
      LastNumber(records[..n], f);
      LastStays(records[..n], records[n], f, 0, LastNonzero(records[..n], f));
      SplitLast(records);
    }
  }

  lemma {:induction false} LastText(records: seq<UsageInfo>, f: UsageInfo -> string)
    ensures LastAt(records, f, "", LastNonempty(records, f))
  {
    hide LastAt;
    if records == [] {
      assert LastAt(records, f, "", "") by { NoneIsLast(f, ""); }
    } else {
      var n := |records| - 1;
      LastText(records[..n], f);
      LastStays(records[..n], records[n], f, "", LastNonempty(records[..n], f));
      SplitLast(records);
    }
  }

  lemma NoneIsLast<T(!new)>(field: UsageInfo -> T, none: T)
    ensures LastAt([], field, none, none)
  {}

  /** The last filled record is that of the last event that fills it. */
  lemma LastOfEvents<T(!new)>(c: Config, events: seq<seq<byte>>, field: UsageInfo -> T, none: T, value: T)
    requires LastAt(Reported(c, events), field, none, value)
    ensures LastReport(c, events, field, none, value)
  {
    hide Reported;
    var at := ReportedExactly(c, events);
    var records := Reported(c, events);
    if value == none {
      forall k | ReportsAt(c, events, k) ensures field(UsageAt(c, events, k)) == none {
        assert (k as nat) in at;
        var i :| 0 <= i < |at| && at[i] == k;
        assert field(records[i]) == none;
      }
    } else {
      var i :| 0 <= i < |records| && field(records[i]) == value && forall j | i < j < |records| :: field(records[j]) == none;
      var k := at[i];
      assert ReportsAt(c, events, k) && field(UsageAt(c, events, k)) == value;
      forall j | k < j && ReportsAt(c, events, j) ensures field(UsageAt(c, events, j)) == none {
        assert (j as nat) in at;
        var i' :| 0 <= i' < |at| && at[i'] == j;
        assert i < i';
        assert field(records[i']) == none;
      }
    }
  }

  lemma NumberReported(c: Config, events: seq<seq<byte>>, f: UsageInfo -> int64)
    ensures LastReport(c, events, f, 0, LastNonzero(Reported(c, events), f))
  {
    hide Reported, LastAt, LastReport;
    LastNumber(Reported(c, events), f);
    LastOfEvents(c, events, f, 0, LastNonzero(Reported(c, events), f));
  }

  lemma TextReported(c: Config, events: seq<seq<byte>>, f: UsageInfo -> string)
    ensures LastReport(c, events, f, "", LastNonempty(Reported(c, events), f))
  {
    hide Reported, LastAt, LastReport;
    LastText(Reported(c, events), f);
    LastOfEvents(c, events, f, "", LastNonempty(Reported(c, events), f));
  }

  /** The events whose text the extractor cannot read. */
  function MalformedAt(c: Config, events: seq<seq<byte>>): set<int> {
    set k | 0 <= k < |events| && c.extract(events[k]).Malformed?
  }

  /** The parse errors are the malformed events, each counted once. */
  lemma {:induction false} ParseErrorsExactly(c: Config, events: seq<seq<byte>>)
    ensures ParseErrors(c, events) == |MalformedAt(c, events)|
  {
    if events == [] {
      assert MalformedAt(c, events) == {};
    } else {
      var n := |events| - 1;
      ParseErrorsExactly(c, events[..n]);
      var before := MalformedAt(c, events[..n]);
      assert MalformedAt(c, events) == if c.extract(events[n]).Malformed? then before + {n} else before;
    }
  }

  lemma UsageIffReported(c: Config, pieces: seq<seq<byte>>)
    ensures var o := Metered(c, pieces);
      && o.usage == MergeAll(Reported(c, o.events)) && o.parseErrors == ParseErrors(c, o.events)
      && (o.usage.Some? <==> Reported(c, o.events) != [])
      && (o.usage.Some? <==> exists k :: ReportsAt(c, o.events, k))
  {
    hide Flushed, RunLines, Reported, ParseErrors, Merge;
    var events := Metered(c, pieces).events;
    var at := ReportedExactly(c, events);
    if k :| ReportsAt(c, events, k) { assert (k as nat) in at; }
    if at != [] { assert at[0] in at; }
  }

  /** The token counts of a metered stream: each that of the last event that reports it; and every malformed event an error. */
  lemma MeteredTokens(c: Config, pieces: seq<seq<byte>>)
    ensures var o := Metered(c, pieces);
      && o.parseErrors == |MalformedAt(c, o.events)|
      && (o.usage.Some? <==> exists k :: ReportsAt(c, o.events, k))
      && (o.usage.Some? ==>
            && LastReport(c, o.events, (u: UsageInfo) => u.inputTokens, 0, o.usage.value.inputTokens)
            && LastReport(c, o.events, (u: UsageInfo) => u.outputTokens, 0, o.usage.value.outputTokens)
            && LastReport(c, o.events, (u: UsageInfo) => u.reasoningTokens, 0, o.usage.value.reasoningTokens)
            && LastReport(c, o.events, (u: UsageInfo) => u.cachedTokens, 0, o.usage.value.cachedTokens)
            && LastReport(c, o.events, (u: UsageInfo) => u.cacheCreationTokens, 0, o.usage.value.cacheCreationTokens))
  {
    hide Metered, Reported, LastReport, LastNonzero, MergeAll, ParseErrors, MalformedAt;
    UsageIffReported(c, pieces);
    var events := Metered(c, pieces).events;
    ParseErrorsExactly(c, events);
    if Reported(c, events) != [] {
      MergedTokens(Reported(c, events));
      NumberReported(c, events, (u: UsageInfo) => u.inputTokens);
      NumberReported(c, events, (u: UsageInfo) => u.outputTokens);
      NumberReported(c, events, (u: UsageInfo) => u.reasoningTokens);
      NumberReported(c, events, (u: UsageInfo) => u.cachedTokens);
      NumberReported(c, events, (u: UsageInfo) => u.cacheCreationTokens);
    }
  }

  /** So are its image counts. */
  lemma MeteredImages(c: Config, pieces: seq<seq<byte>>)
    requires Metered(c, pieces).usage.Some?
    ensures var o := Metered(c, pieces);
      && LastReport(c, o.events, (u: UsageInfo) => u.inputTextTokens, 0, o.usage.value.inputTextTokens)
      && LastReport(c, o.events, (u: UsageInfo) => u.inputImageTokens, 0, o.usage.value.inputImageTokens)
      && LastReport(c, o.events, (u: UsageInfo) => u.cachedTextTokens, 0, o.usage.value.cachedTextTokens)
      && LastReport(c, o.events, (u: UsageInfo) => u.cachedImageTokens, 0, o.usage.value.cachedImageTokens)
      && LastReport(c, o.events, (u: UsageInfo) => u.imageCount, 0, o.usage.value.imageCount)
      && LastReport(c, o.events, (u: UsageInfo) => u.inputImageCount, 0, o.usage.value.inputImageCount)
  {
    hide Metered, Reported, LastReport, LastNonzero, MergeAll;
    UsageIffReported(c, pieces);
    var events := Metered(c, pieces).events;
    MergedImageFields(Reported(c, events));
    NumberReported(c, events, (u: UsageInfo) => u.inputTextTokens);
    NumberReported(c, events, (u: UsageInfo) => u.inputImageTokens);
    NumberReported(c, events, (u: UsageInfo) => u.cachedTextTokens);
    NumberReported(c, events, (u: UsageInfo) => u.cachedImageTokens);
    NumberReported(c, events, (u: UsageInfo) => u.imageCount);
    NumberReported(c, events, (u: UsageInfo) => u.inputImageCount);
  }

  /** And its texts. */
  lemma MeteredTexts(c: Config, pieces: seq<seq<byte>>)
    requires Metered(c, pieces).usage.Some?
    ensures var o := Metered(c, pieces);
      && LastReport(c, o.events, (u: UsageInfo) => u.model, "", o.usage.value.model)
      && LastReport(c, o.events, (u: UsageInfo) => u.usageRawJSON, "", o.usage.value.usageRawJSON)
      && LastReport(c, o.events, (u: UsageInfo) => u.operation, "", o.usage.value.operation)
      && LastReport(c, o.events, (u: UsageInfo) => u.size, "", o.usage.value.size)
      && LastReport(c, o.events, (u: UsageInfo) => u.quality, "", o.usage.value.quality)
      && LastReport(c, o.events, (u: UsageInfo) => u.outputFormat, "", o.usage.value.outputFormat)
  {
    hide Metered, Reported, LastReport, LastNonempty, MergeAll;
    UsageIffReported(c, pieces);
    var events := Metered(c, pieces).events;
    MergedText(Reported(c, events));
    TextReported(c, events, (u: UsageInfo) => u.model);
    TextReported(c, events, (u: UsageInfo) => u.usageRawJSON);
    TextReported(c, events, (u: UsageInfo) => u.operation);
    TextReported(c, events, (u: UsageInfo) => u.size);
    TextReported(c, events, (u: UsageInfo) => u.quality);
    TextReported(c, events, (u: UsageInfo) => u.outputFormat);
  }

  /**
   A metered Anthropic stream: the first report has the input, all others only the output so far. Whatever else is
   in between, the usage is that input, the last output, and their sum.
   */
  lemma MeteredAnthropic(c: Config, pieces: seq<seq<byte>>, first: nat, last: nat)
    requires var events := Metered(c, pieces).events;
      && first < last && ReportsAt(c, events, first) && ReportsAt(c, events, last)
      && (forall k | ReportsAt(c, events, k) :: first <= k <= last)
      && UsageAt(c, events, first).inputTokens > 0
      && (forall k | ReportsAt(c, events, k) && k != first :: OutputOnly(UsageAt(c, events, k)))
    ensures var o := Metered(c, pieces);
      && o.usage.Some?
      && o.usage.value.inputTokens == UsageAt(c, o.events, first).inputTokens
      && o.usage.value.outputTokens == UsageAt(c, o.events, last).outputTokens
      && o.usage.value.totalTokens
         == Wrap64(UsageAt(c, o.events, first).inputTokens + UsageAt(c, o.events, last).outputTokens)
  {
    hide Metered, Reported, MergeAll, OutputOnly, Wrap64;
    UsageIffReported(c, pieces);
    var events := Metered(c, pieces).events;
    var at := ReportedExactly(c, events);
    var records := Reported(c, events);
    FirstAndLast(at, first, last);
    assert records == [records[0]] + records[1..];
    forall i | 0 <= i < |records[1..]| ensures OutputOnly(records[1..][i]) {
      assert at[i + 1] != first && records[1..][i] == UsageAt(c, events, at[i + 1]);
    }
    AnthropicStreamTotal(records[0], records[1..]);
  }

  lemma FirstAndLast(at: seq<nat>, first: nat, last: nat)
    requires Increasing(at) && first in at && last in at && first < last && forall i | 0 <= i < |at| :: first <= at[i] <= last
    ensures |at| >= 2 && at[0] == first && at[|at| - 1] == last
  {
    var i :| 0 <= i < |at| && at[i] == first;
    var j :| 0 <= j < |at| && at[j] == last;
  }

  // ---------- independence of the cut into reads ----------

  /**
   Two cuts of the same bytes, neither separating a CR from a following LF, give
   the same lines, events, skip and error counts, and merged usage.
   */
  lemma CutDoesNotMatter(c: Config, a: seq<seq<byte>>, b: seq<seq<byte>>)
    requires Flatten(a) == Flatten(b) && Lines.NoSplit(a) && Lines.NoSplit(b)
    ensures Lines.SeenLines(a) == Lines.SeenLines(b) == Lines.LinesOf(Flatten(a))
    ensures Metered(c, a) == Metered(c, b)
  {
    Lines.SeenLinesAreTheText(a);
    Lines.SeenLinesAreTheText(b);
    Lines.PendingIsRest(a);
    Lines.PendingIsRest(b);
  }

  lemma BlankHoldsNoData(probe: Probe)
    ensures TrimmedData([[]]) == [] && AllComplete(probe, [[]])
  {
    BlankIsNoData();
    var one: seq<seq<byte>> := [[]];
    assert one[..0] == [];
  }

  lemma DataAppend(a: seq<seq<byte>>, b: seq<seq<byte>>)
    ensures TrimmedData(a + b) == TrimmedData(a) + TrimmedData(b)
    decreases |b|
  {
    if b == [] {
      assert a + b == a;
    } else {
      var n := |b| - 1;
      assert (a + b)[..|a| + n] == a + b[..n];
      DataAppend(a, b[..n]);
    }
  }

  lemma CompleteSplit(probe: Probe, a: seq<seq<byte>>, b: seq<seq<byte>>)
    ensures AllComplete(probe, a + b) <==> AllComplete(probe, a) && AllComplete(probe, b)
  {
    var all := a + b;
    assert forall k | 0 <= k < |a| :: all[k] == a[k];
    assert forall k | 0 <= k < |b| :: b[k] == all[|a| + k];
  }

  /** Lines read behind a spurious blank line, if there was one. */
  lemma SameDataStep(probe: Probe, seen: seq<seq<byte>>, text: seq<seq<byte>>, blank: seq<seq<byte>>, more: seq<seq<byte>>)
    requires blank == [] || blank == [[]]
    requires TrimmedData(seen) == TrimmedData(text) && (AllComplete(probe, seen) <==> AllComplete(probe, text))
    ensures TrimmedData(seen + (blank + more)) == TrimmedData(text + more)
    ensures AllComplete(probe, seen + (blank + more)) <==> AllComplete(probe, text + more)
  {
    hide TrimmedData, AllComplete;
    BlankHoldsNoData(probe);
    DataAppend(seen, blank + more);
    DataAppend(blank, more);
    DataAppend(text, more);
    CompleteSplit(probe, seen, blank + more);
    CompleteSplit(probe, blank, more);
    CompleteSplit(probe, text, more);
    if blank == [] { assert blank + more == more; }
  }

  lemma ClipBlank(maxLine: nat, split: bool, more: seq<seq<byte>>)
    ensures Lines.ClipAll(maxLine, (if split then [[]] else []) + more)
         == (if split then [[]] else []) + Lines.ClipAll(maxLine, more)
  {
    var blank: seq<seq<byte>> := if split then [[]] else [];
    Lines.ClipAppend(maxLine, blank, more);
    assert Lines.ClipAll(maxLine, blank) == blank;
  }

  /** The reads add blank lines only, which hold no data. */
  lemma {:induction false} SameData(c: Config, pieces: seq<seq<byte>>)
    ensures TrimmedData(Delivered(c, pieces))
         == TrimmedData(Lines.ClipAll(c.maxLine, Lines.LinesOf(Flatten(pieces))))
    ensures AllComplete(c.probe, Delivered(c, pieces))
       <==> AllComplete(c.probe, Lines.ClipAll(c.maxLine, Lines.LinesOf(Flatten(pieces))))
  {
    hide TrimmedData, AllComplete, Lines.ClipAll, Lines.TrueLinesOfRead, Lines.SplitAt;
    if pieces == [] {
      Lines.NoBreakOneLine([]);
    } else {
      var n := |pieces| - 1;
      var before := pieces[..n];
      SameData(c, before);
      Lines.ReadAddsOneEmptyLine(pieces, n);
      Lines.TextOfReads(pieces);
      var split := Lines.SplitAt(pieces, n);
      var blank: seq<seq<byte>> := if split then [[]] else [];
      var more := Lines.TrueLinesOfRead(pieces, n);
      var seen, text := Lines.SeenLines(before), Lines.LinesOf(Flatten(before));
      Lines.ClipAppend(c.maxLine, seen, blank + more);
      ClipBlank(c.maxLine, split, more);
      Lines.ClipAppend(c.maxLine, text, more);
      SameDataStep(c.probe, Lines.ClipAll(c.maxLine, seen), Lines.ClipAll(c.maxLine, text), blank,
                   Lines.ClipAll(c.maxLine, more));
    }
  }

  /** At the end of a stream every dropped event has counted two skips, and every overlong line one. */
  lemma SkipsOfStream(c: Config, pieces: seq<seq<byte>>)
    ensures Metered(c, pieces).skips
         == 2 * Overflows(c.probe, c.maxLine, Delivered(c, pieces))
            + Lines.TooLong(c.maxLine, Lines.LinesOf(Flatten(pieces)))
            + if |Lines.Rest(Flatten(pieces))| > c.maxLine then 1 else 0
  {
    hide RunLines, Overflows, MergeAll, Reported, ParseErrors, Delivered, Lines.TooLong, Lines.LinesOf, Lines.SeenLines, Lines.Rest;
    SkipsExactly(c.probe, c.maxLine, Delivered(c, pieces));
    LineSkipsIgnoreCuts(c, pieces);
    Lines.PendingIsRest(pieces);
  }

  // ---------- what a separated CRLF changes ----------

  /** The run of some lines behind another run. */
  function RunFrom(c: Config, r: Run, lines: seq<seq<byte>>): Run {
    if lines == [] then r
    else
      var before := RunFrom(c, r, lines[..|lines| - 1]);
      After(before, LineStep(c.probe, c.maxLine, before.state, lines[|lines| - 1]))
  }

  lemma {:induction false} RunAppend(c: Config, a: seq<seq<byte>>, b: seq<seq<byte>>)
    ensures RunLines(c.probe, c.maxLine, a + b) == RunFrom(c, RunLines(c.probe, c.maxLine, a), b)
  {
    hide LineStep;
    if b == [] {
      ConcatEmpty(a);
    } else {
      var n := |b| - 1;
      RunAppend(c, a, b[..n]);
      ConcatAssociates(a, b[..n], [b[n]]);
      SplitLast(b);
      RunSnoc(c.probe, c.maxLine, a + b[..n], b[n]);
    }
  }

  lemma FlushedTwice(r: Run)
    ensures Flushed(Flushed(r)) == Flushed(r)
    ensures r.state == EMPTY ==> Flushed(r) == r
  {
    hide Join;
  }

  lemma BlankStep(c: Config, r: Run)
    ensures After(r, LineStep(c.probe, c.maxLine, r.state, [])) == Flushed(r)
  {
    hide FlushStep;
  }

  lemma OneStep(c: Config, r: Run, line: seq<byte>)
    ensures RunFrom(c, r, [line]) == After(r, LineStep(c.probe, c.maxLine, r.state, line))
  {
    hide LineStep;
    var none: seq<seq<byte>> := [];
    assert [line][..0] == none;
  }

  /** A blank line in front of some lines flushes first. */
  lemma {:induction false} BlankFlushes(c: Config, r: Run, lines: seq<seq<byte>>)
    ensures RunFrom(c, r, [[]] + lines) == RunFrom(c, Flushed(r), lines)
  {
    hide LineStep, Flushed;
    var blank: seq<byte> := [];
    if lines == [] {
      assert [blank] + lines == [blank];
      OneStep(c, r, blank);
      BlankStep(c, r);
    } else {
      var n := |lines| - 1;
      BlankFlushes(c, r, lines[..n]);
      assert ([blank] + lines)[..n + 1] == [blank] + lines[..n];
    }
  }

  /** No data line comes before the next blank line, or before the end. */
  predicate BlankBeforeData(lines: seq<seq<byte>>) {
    lines == [] || lines[0] == [] || (!IsData(lines[0]) && BlankBeforeData(lines[1..]))
  }

  /** A line behind an early flush makes up for it when it is blank, and leaves it early when it holds no data. */
  lemma EarlyFlushStep(c: Config, t: Run, line: seq<byte>)
    requires line == [] || !IsData(line)
    ensures After(Flushed(t), LineStep(c.probe, c.maxLine, Flushed(t).state, line)) == Flushed(t)
    ensures After(t, LineStep(c.probe, c.maxLine, t.state, line)) == if line == [] then Flushed(t) else t
  {
    hide Join, IsData;
    FlushedTwice(t);
    ConcatEmpty(t.events);
  }

  /** Flushed early, a run is as if it had not been, or will be at the next blank line. */
  lemma {:induction false} EarlyFlush(c: Config, t: Run, lines: seq<seq<byte>>, rest: seq<seq<byte>>)
    requires BlankBeforeData(lines + rest)
    ensures var r', t' := RunFrom(c, Flushed(t), lines), RunFrom(c, t, lines);
      r' == t' || (r' == Flushed(t') && BlankBeforeData(rest))
  {
    hide LineStep, Flushed, IsData;
    if lines == [] {
      ConcatEmpty(rest);
    } else {
      var n := |lines| - 1;
      var line := lines[n];
      SplitLast(lines);
      ConcatAssociates(lines[..n], [line], rest);
      EarlyFlush(c, t, lines[..n], [line] + rest);
      assert ([line] + rest)[1..] == rest;
      var t' := RunFrom(c, t, lines[..n]);
      if RunFrom(c, Flushed(t), lines[..n]) != t' { EarlyFlushStep(c, t', line); }
    }
  }

  /** The lines of the text that the reads from the `k`-th on complete. */
  function Ahead(c: Config, pieces: seq<seq<byte>>, k: nat): seq<seq<byte>>
    requires k <= |pieces|
    decreases |pieces| - k
  {
    if k == |pieces| then [] else Lines.ClipAll(c.maxLine, Lines.TrueLinesOfRead(pieces, k)) + Ahead(c, pieces, k + 1)
  }

  /**
   Where a read begins inside a CRLF, nothing waits in the assembler, or what waits is sent at the next blank line
   anyway, with no data line before it.
   */
  predicate QuietCuts(c: Config, pieces: seq<seq<byte>>) {
    forall k | 0 <= k < |pieces| && Lines.SplitAt(pieces, k) ::
      RunLines(c.probe, c.maxLine, Delivered(c, pieces[..k])).state == EMPTY || BlankBeforeData(Ahead(c, pieces, k))
  }

  /** The lines of the text, as the assembler gets them. */
  function TextLines(c: Config, pieces: seq<seq<byte>>): seq<seq<byte>> {
    Lines.ClipAll(c.maxLine, Lines.LinesOf(Flatten(pieces)))
  }

  /** What one more read delivers, and what of it is in the text. */
  lemma OneMoreDelivered(c: Config, pieces: seq<seq<byte>>)
    requires pieces != []
    ensures var n := |pieces| - 1;
      var more := Lines.ClipAll(c.maxLine, Lines.TrueLinesOfRead(pieces, n));
      && Delivered(c, pieces) == Delivered(c, pieces[..n]) + ((if Lines.SplitAt(pieces, n) then [[]] else []) + more)
      && TextLines(c, pieces) == TextLines(c, pieces[..n]) + more
      && Lines.TooLong(c.maxLine, Lines.SeenLines(pieces))
         == Lines.TooLong(c.maxLine, Lines.SeenLines(pieces[..n])) + Lines.TooLong(c.maxLine, Lines.TrueLinesOfRead(pieces, n))
      && Lines.TooLong(c.maxLine, Lines.LinesOf(Flatten(pieces)))
         == Lines.TooLong(c.maxLine, Lines.LinesOf(Flatten(pieces[..n]))) + Lines.TooLong(c.maxLine, Lines.TrueLinesOfRead(pieces, n))
  {
    hide Lines.ClipAll, Lines.TrueLinesOfRead, Lines.SplitAt, Lines.LinesOf, Flatten;
    var n := |pieces| - 1;
    Lines.ReadAddsOneEmptyLine(pieces, n);
    Lines.TextOfReads(pieces);
    var split := Lines.SplitAt(pieces, n);
    var blank: seq<seq<byte>> := if split then [[]] else [];
    var more := Lines.TrueLinesOfRead(pieces, n);
    Lines.ClipAppend(c.maxLine, Lines.SeenLines(pieces[..n]), blank + more);
    ClipBlank(c.maxLine, split, more);
    Lines.ClipAppend(c.maxLine, Lines.LinesOf(Flatten(pieces[..n])), more);
    Lines.TooLongAppend(c.maxLine, Lines.SeenLines(pieces[..n]), blank + more);
    Lines.TooLongAppend(c.maxLine, blank, more);
    Lines.TooLongAppend(c.maxLine, Lines.LinesOf(Flatten(pieces[..n])), more);
    assert Lines.TooLong(c.maxLine, blank) == 0;
  }

  /** Overlong lines are counted the same for every cut. */
  lemma {:induction false} LineSkipsIgnoreCuts(c: Config, pieces: seq<seq<byte>>)
    ensures Lines.TooLong(c.maxLine, Lines.SeenLines(pieces)) == Lines.TooLong(c.maxLine, Lines.LinesOf(Flatten(pieces)))
  {
    hide Lines.TrueLinesOfRead, Lines.SplitAt, Lines.ClipAll;
    if pieces == [] {
      Lines.NoLinesOfNothing();
    } else {
      hide Lines.LinesOf, Lines.SeenLines, Flatten, Lines.TooLong;
      LineSkipsIgnoreCuts(c, pieces[..|pieces| - 1]);
      OneMoreDelivered(c, pieces);
    }
  }

  /** What the assembler got is as good as the text, or was flushed early and the text will be at its next blank line. */
  predicate Close(c: Config, pieces: seq<seq<byte>>, k: nat)
    requires k <= |pieces|
  {
    var r := RunLines(c.probe, c.maxLine, Delivered(c, pieces[..k]));
    var t := RunLines(c.probe, c.maxLine, TextLines(c, pieces[..k]));
    r == t || (r == Flushed(t) && BlankBeforeData(Ahead(c, pieces, k)))
  }

  /** One read later, in terms of the runs before it. */
  lemma ReadOn(c: Config, pieces: seq<seq<byte>>, k: nat)
    requires k < |pieces|
    ensures var r := RunLines(c.probe, c.maxLine, Delivered(c, pieces[..k]));
      var t := RunLines(c.probe, c.maxLine, TextLines(c, pieces[..k]));
      var more := Lines.ClipAll(c.maxLine, Lines.TrueLinesOfRead(pieces, k));
      && RunLines(c.probe, c.maxLine, Delivered(c, pieces[..k + 1]))
         == RunFrom(c, if Lines.SplitAt(pieces, k) then Flushed(r) else r, more)
      && RunLines(c.probe, c.maxLine, TextLines(c, pieces[..k + 1])) == RunFrom(c, t, more)
  {
    var upTo := pieces[..k + 1];
    assert upTo[..k] == pieces[..k] && upTo[k] == pieces[k];
    assert Lines.SplitAt(upTo, k) == Lines.SplitAt(pieces, k);
    assert Lines.TrueLinesOfRead(upTo, k) == Lines.TrueLinesOfRead(pieces, k);
    hide RunLines, Delivered, TextLines, RunFrom, Flushed, Lines.TrueLinesOfRead, Lines.SplitAt, Lines.ClipAll;
    var more := Lines.ClipAll(c.maxLine, Lines.TrueLinesOfRead(pieces, k));
    OneMoreDelivered(c, upTo);
    RunAppend(c, Delivered(c, pieces[..k]), (if Lines.SplitAt(pieces, k) then [[]] else []) + more);
    RunAppend(c, TextLines(c, pieces[..k]), more);
    if Lines.SplitAt(pieces, k) {
      BlankFlushes(c, RunLines(c.probe, c.maxLine, Delivered(c, pieces[..k])), more);
    } else {
      ConcatEmpty(more);
    }
  }

  lemma CloseNext(c: Config, pieces: seq<seq<byte>>, k: nat)
    requires QuietCuts(c, pieces) && k < |pieces| && Close(c, pieces, k)
    ensures Close(c, pieces, k + 1)
  {
    hide RunLines, Delivered, TextLines, RunFrom, Flushed, BlankBeforeData, Lines.TrueLinesOfRead, Lines.SplitAt, Lines.ClipAll;
    var r := RunLines(c.probe, c.maxLine, Delivered(c, pieces[..k]));
    var t := RunLines(c.probe, c.maxLine, TextLines(c, pieces[..k]));
    var more := Lines.ClipAll(c.maxLine, Lines.TrueLinesOfRead(pieces, k));
    ReadOn(c, pieces, k);
    FlushedTwice(r);
    FlushedTwice(t);
    if BlankBeforeData(Ahead(c, pieces, k)) { EarlyFlush(c, t, more, Ahead(c, pieces, k + 1)); }
  }

  lemma {:induction false} CloseToTheEnd(c: Config, pieces: seq<seq<byte>>, k: nat)
    requires QuietCuts(c, pieces) && k <= |pieces| && Close(c, pieces, k)
    ensures Close(c, pieces, |pieces|)
    decreases |pieces| - k
  {
    hide QuietCuts, Close;
    if k < |pieces| {
      CloseNext(c, pieces, k);
      CloseToTheEnd(c, pieces, k + 1);
    }
  }

  /** Once flushed, the runs are the same. */
  lemma QuietRun(c: Config, pieces: seq<seq<byte>>)
    requires QuietCuts(c, pieces)
    ensures Flushed(RunLines(c.probe, c.maxLine, Delivered(c, pieces)))
         == Flushed(RunLines(c.probe, c.maxLine, TextLines(c, pieces)))
  {
    assert pieces[..0] == [] && pieces[..|pieces|] == pieces;
    Lines.NoLinesOfNothing();
    hide QuietCuts, RunLines, Flushed, Ahead;
    CloseToTheEnd(c, pieces, 0);
    FlushedTwice(RunLines(c.probe, c.maxLine, TextLines(c, pieces)));
  }

  /** The same bytes in one read. */
  lemma Uncut(c: Config, pieces: seq<seq<byte>>)
    ensures Metered(c, [Flatten(pieces)])
         == Finished(c, RunLines(c.probe, c.maxLine, TextLines(c, pieces)), LineSkips(c, pieces))
  {
    hide Finished, RunLines, Lines.ClipAll, Lines.LinesOf, Lines.Rest, Lines.TooLong;
    var whole := [Flatten(pieces)];
    WholeRead(Flatten(pieces));
    LineSkipsIgnoreCuts(c, pieces);
    LineSkipsIgnoreCuts(c, whole);
    Lines.PendingIsRest(pieces);
    Lines.PendingIsRest(whole);
  }

  lemma WholeRead(text: seq<byte>)
    ensures Flatten([text]) == text && Lines.SeenLines([text]) == Lines.LinesOf(text)
  {
    var none: seq<seq<byte>> := [];
    assert [text][..0] == none && [text][1..] == none;
    ConcatEmpty(text);
    assert Lines.Pending(none) == [];
    ConcatEmpty(Lines.LinesOf(text));
    assert Flatten([text]) == text + Flatten(none);
    assert Lines.SeenLines([text]) == Lines.SeenLines(none) + Lines.LinesOf(Lines.Pending(none) + text);
  }

  /**
   Wherever a stream is cut, separated CRLFs included, its outcome is that of the same bytes in one read as long as at
   the separated CRLFs nothing waits in the assembler, or no data line comes before the blank line that sends it.
   */
  lemma QuietCutsDoNotMatter(c: Config, pieces: seq<seq<byte>>)
    requires QuietCuts(c, pieces)
    ensures Metered(c, pieces) == Metered(c, [Flatten(pieces)])
  {
    hide Flushed, RunLines, Lines.ClipAll, LineSkips, MergeAll, Reported, ParseErrors;
    QuietRun(c, pieces);
    Uncut(c, pieces);
  }

  /**
   When every data line is complete by itself, as the providers send them, no cut
   matters at all: even one inside a CRLF leaves events, counts and merged usage the same.
   */
  lemma CompleteStreamsIgnoreEveryCut(c: Config, pieces: seq<seq<byte>>)
    requires AllComplete(c.probe, TextLines(c, pieces))
    ensures Metered(c, pieces) == Metered(c, [Flatten(pieces)])
    ensures var events := TrimmedData(TextLines(c, pieces));
      Metered(c, pieces) == Outcome(events, LineSkips(c, pieces), ParseErrors(c, events), MergeAll(Reported(c, events)))
  {
    hide Lines.ClipAll, LineSkips;
    SameData(c, pieces);
    CompleteLinesPassThrough(c.probe, c.maxLine, Delivered(c, pieces));
    CompleteLinesPassThrough(c.probe, c.maxLine, TextLines(c, pieces));
    Uncut(c, pieces);
  }
}
