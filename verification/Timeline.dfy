/** Error counts per interval from samples of counters that restart at zero with the process. */
module Timeline {
  import opened Bytes
  import opened Sums

  datatype Sample = Sample(timestamp: string, unix: int, parseErrors: int, dbErrors: int, droppedEvents: int)

  datatype Row = Row(timestamp: string, parseErrors: int, dbErrors: int, droppedEvents: int, baselineMissing: bool)

  /** A counter below its last sample has restarted. */
  function PositiveDelta(current: int, previous: int): int {
    if current >= previous then current - previous else current
  }

  function RowBetween(a: Sample, b: Sample): Row {
    Row(b.timestamp, PositiveDelta(b.parseErrors, a.parseErrors), PositiveDelta(b.dbErrors, a.dbErrors),
        PositiveDelta(b.droppedEvents, a.droppedEvents), false)
  }

  /** A row for every sample after the first. */
  function RowsBetween(samples: seq<Sample>): seq<Row> {
    if |samples| <= 1 then []
    else RowsBetween(samples[..|samples| - 1]) + [RowBetween(samples[|samples| - 2], samples[|samples| - 1])]
  }

  /** A first sample before the period is the baseline; one inside it gets an empty row marked as having none. */
  function Report(since: int, samples: seq<Sample>): seq<Row> {
    if samples == [] then []
    else if samples[0].unix < since then RowsBetween(samples)
    else [Row(samples[0].timestamp, 0, 0, 0, true)] + RowsBetween(samples)
  }

  /** The samples are the rows of the query in order: the last one before the period if any, then those inside. */
  method ErrorTimelineReport(since: int, samples: seq<Sample>) returns (result: seq<Row>)
    ensures result == Report(since, samples)
  {
    result := [];
    var prevParse, prevDB, prevDropped, havePrev, baselineMissing := 0, 0, 0, false, false;
    for i := 0 to |samples|
      invariant havePrev == (i > 0) && !baselineMissing
      invariant result == Report(since, samples[..i])
      invariant i > 0 ==> prevParse == samples[i - 1].parseErrors
      invariant i > 0 ==> prevDB == samples[i - 1].dbErrors && prevDropped == samples[i - 1].droppedEvents
    {
      var s := samples[i];
      assert samples[..i + 1][..i] == samples[..i];
      if !havePrev {
        havePrev := true;
        prevParse, prevDB, prevDropped := s.parseErrors, s.dbErrors, s.droppedEvents;
        if s.unix < since { continue; }
        baselineMissing := true;
      }
      result := result + [Row(s.timestamp, PositiveDelta(s.parseErrors, prevParse), PositiveDelta(s.dbErrors, prevDB),
                              PositiveDelta(s.droppedEvents, prevDropped), baselineMissing)];
      baselineMissing := false;
      prevParse, prevDB, prevDropped := s.parseErrors, s.dbErrors, s.droppedEvents;
    }
    assert samples[..|samples|] == samples;
  }

  /** The first sample is a baseline when it lies before the period. */
  predicate HasBaseline(since: int, samples: seq<Sample>) { samples != [] && samples[0].unix < since }

  lemma {:induction false} RowsBetweenAt(samples: seq<Sample>, k: nat)
    ensures |RowsBetween(samples)| == if samples == [] then 0 else |samples| - 1
    ensures k + 1 < |samples| ==> RowsBetween(samples)[k] == RowBetween(samples[k], samples[k + 1])
  {
    hide RowBetween;
    if |samples| > 1 { RowsBetweenAt(samples[..|samples| - 1], if k + 2 < |samples| then k else 0); }
    if k + 2 < |samples| { assert samples[..|samples| - 1][k] == samples[k] && samples[..|samples| - 1][k + 1] == samples[k + 1]; }
  }

  /**
   The report has a row for every sample but the baseline, under its timestamp; the first row lacks a baseline exactly
   when there is none, and then is empty; every other row compares its sample with the one before.
   */
  lemma RowsExactly(since: int, samples: seq<Sample>, k: nat)
    requires k < |Report(since, samples)|
    ensures var skipped := if HasBaseline(since, samples) then 1 else 0;
      var row := Report(since, samples)[k];
      && |Report(since, samples)| + skipped == |samples|
      && row.timestamp == samples[k + skipped].timestamp
      && (row.baselineMissing <==> k == 0 && !HasBaseline(since, samples))
      && (row.baselineMissing ==> row.parseErrors == row.dbErrors == row.droppedEvents == 0)
      && (!row.baselineMissing ==>
            && k + skipped > 0
            && row.parseErrors == PositiveDelta(samples[k + skipped].parseErrors, samples[k + skipped - 1].parseErrors)
            && row.dbErrors == PositiveDelta(samples[k + skipped].dbErrors, samples[k + skipped - 1].dbErrors)
            && row.droppedEvents == PositiveDelta(samples[k + skipped].droppedEvents, samples[k + skipped - 1].droppedEvents))
  {
    hide RowsBetween, PositiveDelta;
    RowsBetweenAt(samples, k);
    if k > 0 { RowsBetweenAt(samples, k - 1); }
  }

  /** Nothing is reported of no sample, and of a baseline alone. */
  lemma EmptyExactly(since: int, samples: seq<Sample>)
    ensures Report(since, samples) == [] <==> samples == [] || (|samples| == 1 && HasBaseline(since, samples))
  {
    RowsBetweenAt(samples, 0);
  }

  // ---------- a counter and its history ----------

  /** What happens to a counter between two samples. */
  datatype Act = Grow(n: nat) | Restart

  function After(c: nat, acts: seq<Act>): nat {
    if acts == [] then c
    else
      var last := acts[|acts| - 1];
      if last.Restart? then 0 else After(c, acts[..|acts| - 1]) + last.n
  }

  function Grown(acts: seq<Act>): nat {
    if acts == [] then 0
    else Grown(acts[..|acts| - 1]) + if acts[|acts| - 1].Grow? then acts[|acts| - 1].n else 0
  }

  /** What was counted before the last restart, and is gone with it. */
  function Forgotten(acts: seq<Act>): nat {
    if acts == [] then 0
    else if acts[|acts| - 1].Restart? then Grown(acts) else Forgotten(acts[..|acts| - 1])
  }

  predicate Restarted(acts: seq<Act>) { Restart in acts }

  lemma {:induction false} AfterIs(c: nat, acts: seq<Act>)
    ensures !Restarted(acts) ==> After(c, acts) == c + Grown(acts) && Forgotten(acts) == 0
    ensures Restarted(acts) ==> After(c, acts) + Forgotten(acts) == Grown(acts)
  {
    if acts != [] {
      var rest := acts[..|acts| - 1];
      AfterIs(c, rest);
      SplitLast(acts);
    }
  }

  /** The gap is counted in full: no restart, or one that forgot nothing and is seen as one. */
  predicate Counted(c: nat, gap: seq<Act>) {
    Restarted(gap) ==> Forgotten(gap) == 0 && (After(c, gap) < c || c == 0)
  }

  lemma GapExactly(c: nat, gap: seq<Act>)
    ensures PositiveDelta(After(c, gap), c) <= Grown(gap)
    ensures PositiveDelta(After(c, gap), c) == Grown(gap) <==> Counted(c, gap)
  {
    AfterIs(c, gap);
  }

  /** A process that restarts and counts past the old sample in one gap: five errors happened, two are reported. */
  lemma RestartCanBeMissed()
    ensures var gap := [Restart, Grow(5)]; !Counted(3, gap) && PositiveDelta(After(3, gap), 3) == 2 < 5 == Grown(gap)
  {
    var gap := [Restart, Grow(5)];
    assert gap[..1] == [Restart] && [Restart][..0] == [];
    assert After(3, [Restart]) == 0 && Grown([Restart]) == 0;
  }

  /** The counter after some gaps, from a first sample on. */
  function Last(c: nat, gaps: seq<seq<Act>>): nat {
    if gaps == [] then c else After(Last(c, gaps[..|gaps| - 1]), gaps[|gaps| - 1])
  }

  function Increments(gaps: seq<seq<Act>>): nat {
    if gaps == [] then 0 else Increments(gaps[..|gaps| - 1]) + Grown(gaps[|gaps| - 1])
  }

  predicate AllCounted(c: nat, gaps: seq<seq<Act>>) {
    gaps == [] || (AllCounted(c, gaps[..|gaps| - 1]) && Counted(Last(c, gaps[..|gaps| - 1]), gaps[|gaps| - 1]))
  }

  /** One of the three counters of a sample, and its column in a row. */
  datatype Column = Parse | Database | Dropped

  function ValueOf(col: Column): Sample -> int {
    (s: Sample) => match col case Parse => s.parseErrors case Database => s.dbErrors case Dropped => s.droppedEvents
  }

  function DeltaOf(col: Column): Row -> int {
    (r: Row) => match col case Parse => r.parseErrors case Database => r.dbErrors case Dropped => r.droppedEvents
  }

  /** The samples of a column are those of a counter with the given history. */
  predicate Follows(col: Column, samples: seq<Sample>, c: nat, gaps: seq<seq<Act>>) {
    |samples| == |gaps| + 1
    && (gaps != [] ==> Follows(col, samples[..|samples| - 1], c, gaps[..|gaps| - 1]))
    && ValueOf(col)(samples[|samples| - 1]) == Last(c, gaps)
  }

  lemma LastFollows(col: Column, samples: seq<Sample>, c: nat, gaps: seq<seq<Act>>)
    requires Follows(col, samples, c, gaps)
    ensures ValueOf(col)(samples[|samples| - 1]) == Last(c, gaps)
  {}

  lemma {:induction false} DeltasExactly(col: Column, samples: seq<Sample>, c: nat, gaps: seq<seq<Act>>)
    requires Follows(col, samples, c, gaps)
    ensures Total(RowsBetween(samples), DeltaOf(col)) <= Increments(gaps)
    ensures Total(RowsBetween(samples), DeltaOf(col)) == Increments(gaps) <==> AllCounted(c, gaps)
  {
    if gaps != [] {
      var init, before := samples[..|samples| - 1], gaps[..|gaps| - 1];
      DeltasExactly(col, init, c, before);
      LastFollows(col, init, c, before);
      assert init[|init| - 1] == samples[|samples| - 2];
      GapExactly(Last(c, before), gaps[|gaps| - 1]);
      TotalAppend(RowsBetween(init), [RowBetween(samples[|samples| - 2], samples[|samples| - 1])], DeltaOf(col));
    }
  }

  /** The report never counts more than happened, and counts all of it exactly when every gap is counted in full. */
  lemma ReportExactly(since: int, col: Column, samples: seq<Sample>, c: nat, gaps: seq<seq<Act>>)
    requires Follows(col, samples, c, gaps)
    ensures Total(Report(since, samples), DeltaOf(col)) <= Increments(gaps)
    ensures Total(Report(since, samples), DeltaOf(col)) == Increments(gaps) <==> AllCounted(c, gaps)
  {
    DeltasExactly(col, samples, c, gaps);
    TotalAppend([Row(samples[0].timestamp, 0, 0, 0, true)], RowsBetween(samples), DeltaOf(col));
  }

  predicate NoRestart(gaps: seq<seq<Act>>) { forall gap | gap in gaps :: !Restarted(gap) }

  lemma {:induction false} WithoutRestart(c: nat, gaps: seq<seq<Act>>)
    requires NoRestart(gaps)
    ensures AllCounted(c, gaps) && Last(c, gaps) == c + Increments(gaps)
  {
    if gaps != [] {
      WithoutRestart(c, gaps[..|gaps| - 1]);
      AfterIs(Last(c, gaps[..|gaps| - 1]), gaps[|gaps| - 1]);
      SplitLast(gaps);
    }
  }

  /** Without a restart the deltas add up to the last sample minus the first. */
  lemma WithoutRestartTelescopes(since: int, col: Column, samples: seq<Sample>, c: nat, gaps: seq<seq<Act>>)
    requires Follows(col, samples, c, gaps) && NoRestart(gaps)
    ensures Total(Report(since, samples), DeltaOf(col))
         == ValueOf(col)(samples[|samples| - 1]) - ValueOf(col)(samples[0]) == Increments(gaps)
  {
    ReportExactly(since, col, samples, c, gaps);
    WithoutRestart(c, gaps);
    LastFollows(col, samples, c, gaps);
    FirstFollows(col, samples, c, gaps);
  }

  lemma {:induction false} FirstFollows(col: Column, samples: seq<Sample>, c: nat, gaps: seq<seq<Act>>)
    requires Follows(col, samples, c, gaps)
    ensures ValueOf(col)(samples[0]) == c
  {
    if gaps != [] { FirstFollows(col, samples[..|samples| - 1], c, gaps[..|gaps| - 1]); }
  }
}
