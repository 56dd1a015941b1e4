/**
 Server-sent events put together from lines.  A `data:` line that is complete by
 itself is passed on at once; others wait until a blank line, or until what waits
 is complete.  What grows over the limit is dropped up to the next blank line.
 */
module SseAssembler {
  import opened Bytes

  /** White-space trimming and JSON validity belong to the platform. */
  datatype Probe = Probe(trim: seq<byte> -> seq<byte>, valid: seq<byte> -> bool)

  /** The bytes of `[DONE]`, `data:` and `data: `. */
  const DONE: seq<byte> := [91, 68, 79, 78, 69, 93]
  const DATA: seq<byte> := [100, 97, 116, 97, 58]
  const DATA_SPACE: seq<byte> := [100, 97, 116, 97, 58, 32]

  predicate PendingComplete(probe: Probe, payload: seq<byte>) {
    probe.trim(payload) == DONE || probe.valid(probe.trim(payload))
  }

  predicate SingleLineComplete(probe: Probe, payload: seq<byte>) {
    probe.trim(payload) == [] || PendingComplete(probe, payload)
  }

  function TrimLeft(line: seq<byte>): seq<byte> {
    if line != [] && (line[0] == SPACE || line[0] == TAB) then TrimLeft(line[1..]) else line
  }

  predicate IsData(line: seq<byte>) { DATA <= TrimLeft(line) }

  /** The text behind `data:` and one optional space. */
  function Payload(line: seq<byte>): seq<byte>
    requires IsData(line)
  {
    var data := TrimLeft(line)[|DATA|..];
    if data != [] && data[0] == SPACE then data[1..] else data
  }

  /** The parts joined by line feeds. */
  function Join(parts: seq<seq<byte>>): seq<byte> {
    if parts == [] then []
    else if |parts| == 1 then parts[0]
    else Join(parts[..|parts| - 1]) + [LF] + parts[|parts| - 1]
  }

  function BufferedSize(parts: seq<seq<byte>>): nat {
    if parts == [] then 0 else BufferedSize(parts[..|parts| - 1]) + |parts[|parts| - 1]| + 1
  }

  // ---------- one step ----------

  datatype State = State(data: seq<seq<byte>>, size: nat, overflow: bool)

  /** `event` is empty when nothing is passed on. */
  datatype Step = Step(next: State, event: seq<byte>, skipped: bool)

  const EMPTY: State := State([], 0, false)

  function FlushStep(a: State): Step {
    if a.overflow then Step(EMPTY, [], true)
    else if a.data == [] then Step(a, [], false)
    else Step(EMPTY, DATA_SPACE + Join(a.data), false)
  }

  /** A line that does not complete anything waits, unless the limit is passed. */
  function Buffer(maxBytes: nat, a: State, payload: seq<byte>, event: seq<byte>): Step {
    var size := a.size + |payload| + 1;
    if size > maxBytes then Step(State([], 0, true), event, true)
    else Step(State(a.data + [payload], size, a.overflow), event, false)
  }

  function LineStep(probe: Probe, maxBytes: nat, a: State, line: seq<byte>): Step {
    if line == [] then FlushStep(a)
    else if !IsData(line) || a.overflow then Step(a, [], false)
    else if a.data != [] && PendingComplete(probe, Join(a.data)) then
      Buffer(maxBytes, EMPTY, Payload(line), DATA_SPACE + Join(a.data))
    else if SingleLineComplete(probe, Payload(line)) then Step(a, TrimLeft(line), false)
    else Buffer(maxBytes, a, Payload(line), [])
  }

  // ---------- the object ----------

  class SseEventAssembler {
    const probe: Probe
    const maxBytes: nat
    var data: seq<seq<byte>>
    var size: nat
    var overflow: bool

    function View(): State reads this { State(data, size, overflow) }

    constructor (probe: Probe, maxBytes: int)
      ensures View() == EMPTY && this.probe == probe
      ensures this.maxBytes == if maxBytes <= 0 then 262144 else maxBytes
    {
      this.probe := probe;
      this.maxBytes := if maxBytes <= 0 then 262144 else maxBytes;
      data, size, overflow := [], 0, false;
    }

    method AddLine(line: seq<byte>) returns (event: seq<byte>, skipped: bool)
      modifies this
      ensures Step(View(), event, skipped) == LineStep(probe, maxBytes, old(View()), line)
    {
      if |line| == 0 {
        event, skipped := Flush();
        return;
      }
      var trimmed := TrimLeft(line);
      if !(DATA <= trimmed) { return [], false; }
      if overflow { return [], false; }
      var payload := trimmed[|DATA|..];
      if |payload| > 0 && payload[0] == SPACE {
        payload := payload[1..];
      }
      event := [];
      if |data| > 0 {
        var complete := PendingPayloadComplete();
        if complete {
          event, skipped := Flush();
        }
      }
      if event == [] && SingleLineComplete(probe, payload) { return trimmed, false; }
      size := size + |payload| + 1;
      if size > maxBytes {
        data, size, overflow := [], 0, true;
        return event, true;
      }
      data := data + [payload];
      return event, false;
    }

    method Flush() returns (event: seq<byte>, skipped: bool)
      modifies this
      ensures Step(View(), event, skipped) == FlushStep(old(View()))
    {
      if overflow {
        overflow, data, size := false, [], 0;
        return [], true;
      }
      if |data| == 0 { return [], false; }
      var joined := PendingPayload();
      data, size := [], 0;
      return DATA_SPACE + joined, false;
    }

    method PendingPayload() returns (out: seq<byte>)
      ensures out == Join(data)
    {
      out := [];
      for i := 0 to |data|
        invariant out == Join(data[..i])
      {
        if i > 0 { out := out + [LF]; }
        out := out + data[i];
        assert data[..i + 1][..i] == data[..i];
      }
      assert data[..|data|] == data;
    }

    method PendingPayloadComplete() returns (complete: bool)
      requires data != []
      ensures complete == PendingComplete(probe, Join(data))
    {
      var payload := PendingPayload();
      complete := PendingComplete(probe, payload);
    }
  }

  // ---------- a run of lines ----------

  datatype Run = Run(state: State, events: seq<seq<byte>>, skips: nat)

  function After(r: Run, step: Step): Run {
    Run(step.next, if step.event == [] then r.events else r.events + [step.event],
        r.skips + if step.skipped then 1 else 0)
  }

  function RunLines(probe: Probe, maxBytes: nat, lines: seq<seq<byte>>): Run {
    if lines == [] then Run(EMPTY, [], 0)
    else
      var r := RunLines(probe, maxBytes, lines[..|lines| - 1]);
      After(r, LineStep(probe, maxBytes, r.state, lines[|lines| - 1]))
  }

  lemma RunSnoc(probe: Probe, maxBytes: nat, lines: seq<seq<byte>>, line: seq<byte>)
    ensures var r := RunLines(probe, maxBytes, lines);
      RunLines(probe, maxBytes, lines + [line]) == After(r, LineStep(probe, maxBytes, r.state, line))
  {
    ConcatSnoc(lines, line);
  }

  /** The buffered size is what waits, is within the limit, and an overflow leaves nothing waiting. */
  predicate StateOk(maxBytes: nat, a: State) {
    a.size == BufferedSize(a.data) <= maxBytes && (a.overflow ==> a.data == [])
  }

  lemma StepKeepsState(probe: Probe, maxBytes: nat, a: State, line: seq<byte>)
    requires StateOk(maxBytes, a)
    ensures StateOk(maxBytes, LineStep(probe, maxBytes, a, line).next)
  {
    if line != [] && IsData(line) {
      var p := Payload(line);
      assert (a.data + [p])[..|a.data|] == a.data;
      assert (EMPTY.data + [p])[..0] == EMPTY.data;
    }
  }

  lemma {:induction false} RunKeepsState(probe: Probe, maxBytes: nat, lines: seq<seq<byte>>)
    ensures StateOk(maxBytes, RunLines(probe, maxBytes, lines).state)
  {
    if lines != [] {
      var before := lines[..|lines| - 1];
      RunKeepsState(probe, maxBytes, before);
      StepKeepsState(probe, maxBytes, RunLines(probe, maxBytes, before).state, lines[|lines| - 1]);
    }
  }

  // ---------- where every line goes ----------

  /** What became of some lines, named by their indices. */
  datatype Fate = Emitted(lines: seq<nat>, event: seq<byte>) | Dropped(lines: seq<nat>)

  /** The fates decided so far, and the lines that still wait. */
  datatype Ledger = Ledger(fates: seq<Fate>, waiting: seq<nat>)

  function Book(probe: Probe, maxBytes: nat, a: State, l: Ledger, line: seq<byte>, n: nat): Ledger {
    var flushed := l.fates + [Emitted(l.waiting, DATA_SPACE + Join(a.data))];
    if line == [] then
      if a.overflow || a.data == [] then l else Ledger(flushed, [])
    else if !IsData(line) then l
    else if a.overflow then Ledger(l.fates + [Dropped([n])], l.waiting)
    else if a.data != [] && PendingComplete(probe, Join(a.data)) then
      if |Payload(line)| + 1 > maxBytes then Ledger(flushed + [Dropped([n])], []) else Ledger(flushed, [n])
    else if SingleLineComplete(probe, Payload(line)) then
      Ledger(l.fates + [Emitted([n], TrimLeft(line))], l.waiting)
    else if a.size + |Payload(line)| + 1 > maxBytes then Ledger(l.fates + [Dropped(l.waiting + [n])], [])
    else Ledger(l.fates, l.waiting + [n])
  }

  function LedgerOf(probe: Probe, maxBytes: nat, lines: seq<seq<byte>>): Ledger {
    if lines == [] then Ledger([], [])
    else
      var n := |lines| - 1;
      Book(probe, maxBytes, RunLines(probe, maxBytes, lines[..n]).state, LedgerOf(probe, maxBytes, lines[..n]), lines[n], n)
  }

  /** The indices of the data lines. */
  function DataLines(lines: seq<seq<byte>>): seq<nat> {
    if lines == [] then []
    else
      var n := |lines| - 1;
      DataLines(lines[..n]) + if IsData(lines[n]) then [n] else []
  }

  predicate DataIndices(lines: seq<seq<byte>>, at: seq<nat>) {
    forall k | 0 <= k < |at| :: at[k] < |lines| && IsData(lines[at[k]])
  }

  function Payloads(lines: seq<seq<byte>>, at: seq<nat>): (p: seq<seq<byte>>)
    requires DataIndices(lines, at)
    ensures |p| == |at| && forall k | 0 <= k < |at| :: p[k] == Payload(lines[at[k]])
  {
    seq(|at|, k requires 0 <= k < |at| && DataIndices(lines, at) => Payload(lines[at[k]]))
  }

  predicate Increasing(at: seq<nat>) { forall i, j | 0 <= i < j < |at| :: at[i] < at[j] }

  function EventOf(f: Fate): seq<seq<byte>> { if f.Emitted? then [f.event] else [] }

  function EventsOf(fates: seq<Fate>): seq<seq<byte>> {
    if fates == [] then []
    else EventsOf(fates[..|fates| - 1]) + EventOf(fates[|fates| - 1])
  }

  function LinesOf(fates: seq<Fate>): seq<nat> {
    if fates == [] then [] else LinesOf(fates[..|fates| - 1]) + fates[|fates| - 1].lines
  }

  /** All lines accounted for, those with a fate first. */
  function Accounted(l: Ledger): seq<nat> { LinesOf(l.fates) + l.waiting }

  /** An emitted event carries exactly its lines' payloads, joined in order. */
  predicate FateOk(lines: seq<seq<byte>>, f: Fate) {
    && DataIndices(lines, f.lines) && Increasing(f.lines)
    && (f.Emitted? ==> IsData(f.event) && Payload(f.event) == Join(Payloads(lines, f.lines)))
  }

  predicate LedgerOk(lines: seq<seq<byte>>, a: State, l: Ledger) {
    && FatesOk(lines, l.fates)
    && DataIndices(lines, l.waiting) && Increasing(l.waiting)
    && a.data == Payloads(lines, l.waiting)
  }

  lemma FateKept(lines: seq<seq<byte>>, line: seq<byte>, f: Fate)
    requires FateOk(lines, f)
    ensures FateOk(lines + [line], f)
  {
    if f.Emitted? { assert Payloads(lines + [line], f.lines) == Payloads(lines, f.lines); }
  }

  lemma JoinedIsData(parts: seq<seq<byte>>)
    ensures IsData(DATA_SPACE + Join(parts)) && Payload(DATA_SPACE + Join(parts)) == Join(parts)
  {
    var e := DATA_SPACE + Join(parts);
    assert TrimLeft(e) == e && e[..|DATA|] == DATA;
    assert e[|DATA|..] == [SPACE] + Join(parts);
  }

  lemma {:induction false} TrimIsTrimmed(line: seq<byte>)
    ensures TrimLeft(TrimLeft(line)) == TrimLeft(line)
  {
    if line != [] && (line[0] == SPACE || line[0] == TAB) { TrimIsTrimmed(line[1..]); }
  }

  lemma OwnLineFate(lines: seq<seq<byte>>, n: nat)
    requires n < |lines| && IsData(lines[n])
    ensures FateOk(lines, Emitted([n], TrimLeft(lines[n]))) && FateOk(lines, Dropped([n]))
  {
    TrimIsTrimmed(lines[n]);
    assert Payloads(lines, [n]) == [Payload(lines[n])];
  }

  lemma WaitingFate(lines: seq<seq<byte>>, a: State, l: Ledger)
    requires LedgerOk(lines, a, l)
    ensures FateOk(lines, Emitted(l.waiting, DATA_SPACE + Join(a.data)))
  {
    JoinedIsData(a.data);
  }

  predicate FatesOk(lines: seq<seq<byte>>, fates: seq<Fate>) {
    forall k | 0 <= k < |fates| :: FateOk(lines, fates[k])
  }

  lemma FatesKept(lines: seq<seq<byte>>, line: seq<byte>, fates: seq<Fate>)
    requires FatesOk(lines, fates)
    ensures FatesOk(lines + [line], fates)
  {
    forall k | 0 <= k < |fates| ensures FateOk(lines + [line], fates[k]) { FateKept(lines, line, fates[k]); }
  }

  lemma FatesSnoc(lines: seq<seq<byte>>, fates: seq<Fate>, f: Fate)
    requires FatesOk(lines, fates) && FateOk(lines, f)
    ensures FatesOk(lines, fates + [f])
  {}

  lemma WaitingKept(lines: seq<seq<byte>>, line: seq<byte>, at: seq<nat>)
    requires DataIndices(lines, at)
    ensures DataIndices(lines + [line], at) && Payloads(lines + [line], at) == Payloads(lines, at)
  {}

  lemma WaitingSnoc(lines: seq<seq<byte>>, at: seq<nat>, n: nat)
    requires DataIndices(lines, at) && Increasing(at) && n < |lines| && IsData(lines[n])
    requires forall k | 0 <= k < |at| :: at[k] < n
    ensures DataIndices(lines, at + [n]) && Increasing(at + [n])
    ensures Payloads(lines, at + [n]) == Payloads(lines, at) + [Payload(lines[n])]
  {}

  lemma NewWaiting(lines: seq<seq<byte>>, a: State, fates: seq<Fate>, n: nat)
    requires FatesOk(lines, fates) && n < |lines| && IsData(lines[n]) && a.data == [Payload(lines[n])]
    ensures LedgerOk(lines, a, Ledger(fates, [n]))
  {
    hide IsData, Payload, FateOk;
    WaitingSnoc(lines, [], n);
    ConcatEmpty([n]);
    ConcatEmpty([Payload(lines[n])]);
  }

  lemma NoneWaiting(lines: seq<seq<byte>>, a: State, fates: seq<Fate>)
    requires FatesOk(lines, fates) && a.data == []
    ensures LedgerOk(lines, a, Ledger(fates, []))
  {
    hide IsData, Payload, FateOk;
  }

  lemma MoreWaiting(lines: seq<seq<byte>>, a: State, l: Ledger, n: nat, a': State)
    requires LedgerOk(lines, a, l) && n < |lines| && IsData(lines[n])
    requires forall k | 0 <= k < |l.waiting| :: l.waiting[k] < n
    requires a'.data == a.data + [Payload(lines[n])]
    ensures LedgerOk(lines, a', Ledger(l.fates, l.waiting + [n]))
    ensures FateOk(lines, Dropped(l.waiting + [n]))
  {
    hide IsData, Payload;
    WaitingSnoc(lines, l.waiting, n);
  }

  lemma SameWaiting(lines: seq<seq<byte>>, a: State, l: Ledger, f: Fate)
    requires LedgerOk(lines, a, l) && FateOk(lines, f)
    ensures LedgerOk(lines, a, Ledger(l.fates + [f], l.waiting)) && FatesOk(lines, l.fates + [f])
  {
    hide FateOk, DataIndices, Increasing;
  }

  lemma LedgerKept(lines: seq<seq<byte>>, a: State, l: Ledger, line: seq<byte>)
    requires LedgerOk(lines, a, l)
    ensures LedgerOk(lines + [line], a, l)
    ensures FateOk(lines + [line], Emitted(l.waiting, DATA_SPACE + Join(a.data)))
    ensures forall k | 0 <= k < |l.waiting| :: l.waiting[k] < |lines|
  {
    FatesKept(lines, line, l.fates);
    WaitingFate(lines, a, l);
    FateKept(lines, line, Emitted(l.waiting, DATA_SPACE + Join(a.data)));
    WaitingKept(lines, line, l.waiting);
  }

  /** One more line keeps the books in order. */
  lemma BookKeepsLedger(probe: Probe, maxBytes: nat, lines: seq<seq<byte>>, a: State, l: Ledger, line: seq<byte>)
    requires LedgerOk(lines, a, l) && (a.overflow ==> a.data == [])
    ensures LedgerOk(lines + [line], LineStep(probe, maxBytes, a, line).next,
                     Book(probe, maxBytes, a, l, line, |lines|))
  {
    hide LedgerOk, FateOk, FatesOk, Join, IsData, TrimLeft, PendingComplete, SingleLineComplete, Payload;
    var all, n := lines + [line], |lines|;
    var next := LineStep(probe, maxBytes, a, line).next;
    var e := Emitted(l.waiting, DATA_SPACE + Join(a.data));
    LedgerKept(lines, a, l, line);
    SameWaiting(all, a, l, e);
    if line == [] {
      if a.overflow { NothingPending(all, a, l, next); } else if a.data != [] { NoneWaiting(all, next, l.fates + [e]); }
    } else if IsData(line) {
      OwnLineFate(all, n);
      if a.overflow {
        SameWaiting(all, a, l, Dropped([n]));
      } else if a.data != [] && PendingComplete(probe, Join(a.data)) {
        FatesSnoc(all, l.fates + [e], Dropped([n]));
        if |Payload(line)| + 1 > maxBytes {
          NoneWaiting(all, next, l.fates + [e] + [Dropped([n])]);
        } else {
          ConcatEmpty([Payload(line)]);
          NewWaiting(all, next, l.fates + [e], n);
        }
      } else if SingleLineComplete(probe, Payload(line)) {
        SameWaiting(all, a, l, Emitted([n], TrimLeft(line)));
      } else {
        MoreWaiting(all, a, l, n, State(a.data + [Payload(line)], 0, false));
        SameWaiting(all, a, l, Dropped(l.waiting + [n]));
        if a.size + |Payload(line)| + 1 > maxBytes {
          NoneWaiting(all, next, l.fates + [Dropped(l.waiting + [n])]);
        } else {
          MoreWaiting(all, a, l, n, next);
        }
      }
    }
  }

  lemma NothingPending(lines: seq<seq<byte>>, a: State, l: Ledger, next: State)
    requires LedgerOk(lines, a, l) && a.data == next.data
    ensures LedgerOk(lines, next, l)
  {}

  lemma OverflowEmpties(maxBytes: nat, a: State)
    requires StateOk(maxBytes, a)
    ensures a.overflow ==> a.data == []
  {}

  lemma {:induction false} LedgerHolds(probe: Probe, maxBytes: nat, lines: seq<seq<byte>>)
    ensures LedgerOk(lines, RunLines(probe, maxBytes, lines).state, LedgerOf(probe, maxBytes, lines))
  {
    if lines != [] {
      hide LedgerOk, Book, LineStep, StateOk;
      var n := |lines| - 1;
      LedgerHolds(probe, maxBytes, lines[..n]);
      RunKeepsState(probe, maxBytes, lines[..n]);
      assert RunLines(probe, maxBytes, lines[..n]).state.overflow ==> RunLines(probe, maxBytes, lines[..n]).state.data == [] by {
        OverflowEmpties(maxBytes, RunLines(probe, maxBytes, lines[..n]).state);
      }
      BookKeepsLedger(probe, maxBytes, lines[..n], RunLines(probe, maxBytes, lines[..n]).state,
                      LedgerOf(probe, maxBytes, lines[..n]), lines[n]);
      SplitLast(lines);
    }
  }

  lemma AppendFate(fates: seq<Fate>, f: Fate)
    ensures LinesOf(fates + [f]) == LinesOf(fates) + f.lines
    ensures EventsOf(fates + [f]) == EventsOf(fates) + EventOf(f)
  {
    assert (fates + [f])[..|fates|] == fates;
  }

  /** A line complete by itself is passed on although an earlier one still waits. */
  predicate Overtakes(probe: Probe, a: State, line: seq<byte>) {
    && IsData(line) && !a.overflow && a.data != []
    && !PendingComplete(probe, Join(a.data)) && SingleLineComplete(probe, Payload(line))
  }

  /** One step: which lines are accounted for, in which order, and which event goes out. */
  lemma BookStep(probe: Probe, maxBytes: nat, a: State, l: Ledger, line: seq<byte>, n: nat)
    requires |l.waiting| == |a.data| && (a.overflow ==> a.data == [])
    ensures var l' := Book(probe, maxBytes, a, l, line, n); var event := LineStep(probe, maxBytes, a, line).event;
      && EventsOf(l'.fates) == EventsOf(l.fates) + (if event == [] then [] else [event])
      && (!IsData(line) ==> Accounted(l') == Accounted(l))
      && (IsData(line) && !Overtakes(probe, a, line) ==> Accounted(l') == Accounted(l) + [n])
      && (Overtakes(probe, a, line) ==> Accounted(l') == LinesOf(l.fates) + [n] + l.waiting)
  {
    hide LinesOf, EventsOf, Join, TrimLeft, PendingComplete, SingleLineComplete, Payload;
    var e := Emitted(l.waiting, DATA_SPACE + Join(a.data));
    AppendFate(l.fates, e);
    if line == [] {
      BlankIsNoData();
    } else if IsData(line) {
      if a.overflow {
        AppendFate(l.fates, Dropped([n]));
      } else if a.data != [] && PendingComplete(probe, Join(a.data)) {
        AppendFate(l.fates + [e], Dropped([n]));
      } else if SingleLineComplete(probe, Payload(line)) {
        DataIsNotEmpty(line);
        AppendFate(l.fates, Emitted([n], TrimLeft(line)));
      } else {
        AppendFate(l.fates, Dropped(l.waiting + [n]));
      }
    }
  }

  lemma BlankIsNoData()
    ensures !IsData([])
  {}

  lemma DataIsNotEmpty(line: seq<byte>)
    requires IsData(line)
    ensures TrimLeft(line) != []
  {}

  lemma {:induction false} DataLinesExactly(lines: seq<seq<byte>>, k: nat)
    ensures k in DataLines(lines) <==> k < |lines| && IsData(lines[k])
  {
    hide IsData;
    if lines != [] {
      var n := |lines| - 1;
      DataLinesExactly(lines[..n], k);
      if k < n { assert lines[..n][k] == lines[k]; }
    }
  }

  lemma {:induction false} DataLinesIncrease(lines: seq<seq<byte>>)
    ensures Increasing(DataLines(lines))
  {
    hide IsData;
    if lines != [] {
      var n := |lines| - 1;
      DataLinesIncrease(lines[..n]);
      if IsData(lines[n]) {
        hide Increasing;
        forall k | k in DataLines(lines[..n]) ensures k < n { DataLinesExactly(lines[..n], k); }
        AppendOrder(DataLines(lines[..n]), n);
      } else {
        ConcatEmpty(DataLines(lines[..n]));
      }
    }
  }

  /** `DataLines` lists the data lines, each once and in order, and leaves none out. */
  lemma DataLinesOk(lines: seq<seq<byte>>)
    ensures DataIndices(lines, DataLines(lines)) && Increasing(DataLines(lines))
    ensures forall n | 0 <= n < |lines| && IsData(lines[n]) :: n in DataLines(lines)
  {
    hide IsData, DataLines, Increasing;
    forall k: nat { DataLinesExactly(lines, k); }
    DataLinesIncrease(lines);
    forall k | 0 <= k < |DataLines(lines)| ensures DataLines(lines)[k] < |lines| && IsData(lines[DataLines(lines)[k]]) {
      assert DataLines(lines)[k] in DataLines(lines);
    }
  }

  /**
   Nothing is lost and nothing is passed on twice: every data line has exactly one
   place, in one event, among the dropped, or waiting; and the events that go out
   are the emitted ones, in order, each with its lines joined in order.
   */
  lemma {:induction false} EveryLineOnce(probe: Probe, maxBytes: nat, lines: seq<seq<byte>>)
    ensures var r := RunLines(probe, maxBytes, lines); var l := LedgerOf(probe, maxBytes, lines);
      && multiset(Accounted(l)) == multiset(DataLines(lines))
      && r.events == EventsOf(l.fates)
      && DataIndices(lines, l.waiting) && r.state.data == Payloads(lines, l.waiting)
      && forall k | 0 <= k < |l.fates| :: FateOk(lines, l.fates[k])
  {
    LedgerHolds(probe, maxBytes, lines);
    if lines != [] {
      var n := |lines| - 1;
      var before := lines[..n];
      EveryLineOnce(probe, maxBytes, before);
      var a, l := RunLines(probe, maxBytes, before).state, LedgerOf(probe, maxBytes, before);
      RunKeepsState(probe, maxBytes, before);
      BookStep(probe, maxBytes, a, l, lines[n], n);
      MoveToFront(LinesOf(l.fates), l.waiting, n);
    }
  }

  lemma MoveToFront(x: seq<nat>, y: seq<nat>, n: nat)
    ensures multiset(x + [n] + y) == multiset(x + y) + multiset{n}
    ensures multiset(x + y + [n]) == multiset(x + y) + multiset{n}
  {
    assert multiset(x + [n] + y) == multiset(x + [n]) + multiset(y);
  }

  predicate NoOvertaking(probe: Probe, maxBytes: nat, lines: seq<seq<byte>>) {
    forall k | 0 <= k < |lines| :: !Overtakes(probe, RunLines(probe, maxBytes, lines[..k]).state, lines[k])
  }

  lemma NoOvertakingPrefix(probe: Probe, maxBytes: nat, lines: seq<seq<byte>>, n: nat)
    requires |lines| == n + 1
    ensures NoOvertaking(probe, maxBytes, lines)
       <==> NoOvertaking(probe, maxBytes, lines[..n])
            && !Overtakes(probe, RunLines(probe, maxBytes, lines[..n]).state, lines[n])
  {
    hide RunLines, Overtakes;
    forall k | 0 <= k < n
      ensures lines[..n][..k] == lines[..k] && lines[..n][k] == lines[k]
    {}
  }

  /**
   Lines leave in the order they came exactly when no line that is complete by
   itself arrives while an unfinished one waits.
   */
  lemma {:induction false} OrderKeptExactly(probe: Probe, maxBytes: nat, lines: seq<seq<byte>>)
    ensures Increasing(Accounted(LedgerOf(probe, maxBytes, lines))) <==> NoOvertaking(probe, maxBytes, lines)
    ensures forall k | k in Accounted(LedgerOf(probe, maxBytes, lines)) :: k < |lines|
  {
    hide Book, Overtakes, NoOvertaking;
    if lines == [] {
      NothingOvertakes(probe, maxBytes);
    } else {
      var n := |lines| - 1;
      var before := lines[..n];
      OrderKeptExactly(probe, maxBytes, before);
      NoOvertakingPrefix(probe, maxBytes, lines, n);
      var a, l := RunLines(probe, maxBytes, before).state, LedgerOf(probe, maxBytes, before);
      RunKeepsState(probe, maxBytes, before);
      LedgerHolds(probe, maxBytes, before);
      BookStep(probe, maxBytes, a, l, lines[n], n);
      AppendOrder(Accounted(l), n);
      OvertakingIsData(probe, a, lines[n]);
      if Overtakes(probe, a, lines[n]) { InsertOrder(LinesOf(l.fates), l.waiting, n); }
    }
  }

  lemma NothingOvertakes(probe: Probe, maxBytes: nat)
    ensures NoOvertaking(probe, maxBytes, [])
  {}

  lemma OvertakingIsData(probe: Probe, a: State, line: seq<byte>)
    ensures Overtakes(probe, a, line) ==> IsData(line) && a.data != []
  {}

  lemma AppendOrder(x: seq<nat>, n: nat)
    requires forall k | k in x :: k < n
    ensures Increasing(x + [n]) <==> Increasing(x)
    ensures forall k | k in x + [n] :: k < n + 1
  {
    if Increasing(x + [n]) {
      forall i, j | 0 <= i < j < |x| ensures x[i] < x[j] { assert (x + [n])[i] < (x + [n])[j]; }
    } else if Increasing(x) {
      forall i, j | 0 <= i < j < |x + [n]| ensures (x + [n])[i] < (x + [n])[j] { assert x[i] in x; }
    }
  }

  lemma InsertOrder(x: seq<nat>, y: seq<nat>, n: nat)
    requires y != [] && forall k | k in x + y :: k < n
    ensures !Increasing(x + [n] + y)
    ensures forall k | k in x + [n] + y :: k < n + 1
  {
    var all := x + [n] + y;
    assert all[|x|] == n && all[|x| + 1] == y[0] && y[0] in x + y;
    forall k | k in all ensures k < n + 1 {
      assert k == n || k in x + y;
    }
  }

  // ---------- data lines ----------

  predicate Indent(s: seq<byte>) { forall k | 0 <= k < |s| :: s[k] == SPACE || s[k] == TAB }

  lemma {:induction false} TrimExactly(indent: seq<byte>, text: seq<byte>)
    requires Indent(indent) && (text == [] || (text[0] != SPACE && text[0] != TAB))
    ensures TrimLeft(indent + text) == text
  {
    if indent == [] {
      ConcatEmpty(text);
    } else {
      assert (indent + text)[1..] == indent[1..] + text;
      TrimExactly(indent[1..], text);
    }
  }

  /** A `data:` line, indented or not: its payload is what follows, without one space in front. */
  lemma DataLineRead(indent: seq<byte>, payload: seq<byte>)
    requires Indent(indent)
    ensures IsData(indent + (DATA + payload)) && IsData(indent + (DATA_SPACE + payload))
    ensures Payload(indent + (DATA_SPACE + payload)) == payload
    ensures payload == [] || payload[0] != SPACE ==> Payload(indent + (DATA + payload)) == payload
  {
    TrimExactly(indent, DATA + payload);
    TrimExactly(indent, DATA_SPACE + payload);
    assert (DATA + payload)[..|DATA|] == DATA && (DATA + payload)[|DATA|..] == payload;
    assert (DATA_SPACE + payload)[..|DATA|] == DATA && (DATA_SPACE + payload)[|DATA|..] == [SPACE] + payload;
  }

  /** And no other line is one. */
  lemma {:induction false} OnlyDataLines(line: seq<byte>) returns (indent: seq<byte>, rest: seq<byte>)
    requires IsData(line)
    ensures Indent(indent) && line == indent + (DATA + rest)
  {
    if line[0] == SPACE || line[0] == TAB {
      var more;
      more, rest := OnlyDataLines(line[1..]);
      indent := [line[0]] + more;
      ConcatAssociates([line[0]], more, DATA + rest);
    } else {
      indent, rest := [], line[|DATA|..];
      ConcatEmpty(line);
    }
  }

  // ---------- joined lines ----------

  /** A text cut at its line feeds. */
  function CutAtFeeds(s: seq<byte>): (parts: seq<seq<byte>>)
    ensures parts != []
  {
    if s == [] then [[]]
    else
      var n := |s| - 1;
      var before := CutAtFeeds(s[..n]);
      if s[n] == LF then before + [[]] else before[..|before| - 1] + [before[|before| - 1] + [s[n]]]
  }

  lemma {:induction false} CutBehindFeed(s: seq<byte>, line: seq<byte>)
    requires LF !in line
    ensures CutAtFeeds(s + [LF] + line) == CutAtFeeds(s) + [line]
  {
    var all := s + [LF] + line;
    if line == [] {
      assert all == s + [LF];
      ConcatSnoc(s, LF);
    } else {
      var n := |line| - 1;
      CutBehindFeed(s, line[..n]);
      assert all[..|all| - 1] == s + [LF] + line[..n] && all[|all| - 1] == line[n] && line[n] in line;
      ConcatSnoc(CutAtFeeds(s), line[..n]);
      SplitLast(line);
    }
  }

  lemma {:induction false} CutOneLine(line: seq<byte>)
    requires LF !in line
    ensures CutAtFeeds(line) == [line]
  {
    if line != [] {
      var n := |line| - 1;
      CutOneLine(line[..n]);
      assert line[n] in line;
      SplitLast(line);
    }
  }

  /** Joined payloads, cut at their line feeds, are the payloads again. */
  lemma {:induction false} JoinedAndCut(parts: seq<seq<byte>>)
    requires parts != [] && forall p | p in parts :: LF !in p
    ensures CutAtFeeds(Join(parts)) == parts
  {
    var n := |parts| - 1;
    assert parts[n] in parts;
    SplitLast(parts);
    if n == 0 {
      CutOneLine(parts[0]);
    } else {
      JoinedAndCut(parts[..n]);
      CutBehindFeed(Join(parts[..n]), parts[n]);
    }
  }

  // ---------- what is complete ----------

  /** A line by itself is passed on at once exactly when its payload is blank, `[DONE]`, or valid JSON. */
  lemma CompleteExactly(probe: Probe, maxBytes: nat, line: seq<byte>)
    requires IsData(line)
    ensures var text := probe.trim(Payload(line));
      LineStep(probe, maxBytes, EMPTY, line) == Step(EMPTY, TrimLeft(line), false)
      <==> text == [] || text == DONE || probe.valid(text)
  {
    DataIsNotEmpty(line);
    assert line != [] by { BlankIsNoData(); }
  }

  /** Lines that wait are sent before the next data line exactly when together they are `[DONE]` or valid JSON. */
  lemma CompletedBeforeNext(probe: Probe, maxBytes: nat, a: State, line: seq<byte>)
    requires IsData(line) && a.data != [] && !a.overflow && !SingleLineComplete(probe, Payload(line))
    ensures var text := probe.trim(Join(a.data));
      LineStep(probe, maxBytes, a, line).event == DATA_SPACE + Join(a.data) <==> text == DONE || probe.valid(text)
  {
    hide Join, IsData, Payload;
    assert line != [] by { BlankIsNoData(); }
  }

  // ---------- streams of complete lines ----------

  /** Every data line is complete by itself. */
  predicate AllComplete(probe: Probe, lines: seq<seq<byte>>) {
    forall k | 0 <= k < |lines| && IsData(lines[k]) :: SingleLineComplete(probe, Payload(lines[k]))
  }

  function TrimmedData(lines: seq<seq<byte>>): seq<seq<byte>> {
    if lines == [] then []
    else
      var n := |lines| - 1;
      TrimmedData(lines[..n]) + if IsData(lines[n]) then [TrimLeft(lines[n])] else []
  }

  /** A stream of complete one-line payloads comes out as exactly those lines, nothing skipped. */
  lemma {:induction false} CompleteLinesPassThrough(probe: Probe, maxBytes: nat, lines: seq<seq<byte>>)
    requires AllComplete(probe, lines)
    ensures RunLines(probe, maxBytes, lines) == Run(EMPTY, TrimmedData(lines), 0)
  {
    if lines != [] {
      var n := |lines| - 1;
      CompleteLinesPassThrough(probe, maxBytes, lines[..n]);
      if lines[n] == [] { assert TrimLeft(lines[n]) == []; }
    }
  }

  /** Unfinished lines, which stay unfinished when joined up to each of them. */
  predicate Unfinished(probe: Probe, lines: seq<seq<byte>>, payloads: seq<seq<byte>>) {
    && |payloads| == |lines|
    && (forall k | 0 <= k < |lines| ::
          IsData(lines[k]) && payloads[k] == Payload(lines[k]) && !SingleLineComplete(probe, payloads[k]))
    && (forall k | 0 < k < |lines| :: !PendingComplete(probe, Join(payloads[..k])))
  }

  lemma UnfinishedPrefix(probe: Probe, lines: seq<seq<byte>>, payloads: seq<seq<byte>>, n: nat)
    requires Unfinished(probe, lines, payloads) && n <= |lines|
    ensures Unfinished(probe, lines[..n], payloads[..n])
  {
    hide Join, IsData, Payload, SingleLineComplete, PendingComplete;
    assert forall k | 0 < k < n :: payloads[..n][..k] == payloads[..k];
  }

  lemma {:induction false} UnfinishedLinesWait(probe: Probe, maxBytes: nat, lines: seq<seq<byte>>, payloads: seq<seq<byte>>)
    requires Unfinished(probe, lines, payloads) && BufferedSize(payloads) <= maxBytes
    ensures RunLines(probe, maxBytes, lines) == Run(State(payloads, BufferedSize(payloads), false), [], 0)
  {
    hide Join, IsData, Payload, SingleLineComplete, PendingComplete, LineStep;
    if lines != [] {
      var n := |lines| - 1;
      UnfinishedPrefix(probe, lines, payloads, n);
      UnfinishedLinesWait(probe, maxBytes, lines[..n], payloads[..n]);
      var a := State(payloads[..n], BufferedSize(payloads[..n]), false);
      UnfinishedLineWaits(probe, maxBytes, a, lines[n]);
      SplitLast(payloads);
    }
  }

  /** Unfinished lines that fit wait together, and a blank line sends them as one event. */
  lemma UnfinishedLinesJoin(probe: Probe, maxBytes: nat, lines: seq<seq<byte>>, payloads: seq<seq<byte>>)
    requires Unfinished(probe, lines, payloads) && BufferedSize(payloads) <= maxBytes
    ensures RunLines(probe, maxBytes, lines) == Run(State(payloads, BufferedSize(payloads), false), [], 0)
    ensures lines != [] ==> RunLines(probe, maxBytes, lines + [[]]) == Run(EMPTY, [DATA_SPACE + Join(payloads)], 0)
  {
    hide RunLines, LineStep, Join, BufferedSize, IsData, Payload, SingleLineComplete, PendingComplete;
    UnfinishedLinesWait(probe, maxBytes, lines, payloads);
    if lines != [] {
      RunSnoc(probe, maxBytes, lines, []);
      BlankSends(probe, maxBytes, payloads, BufferedSize(payloads));
      ConcatEmpty([DATA_SPACE + Join(payloads)]);
    }
  }

  lemma BlankSends(probe: Probe, maxBytes: nat, payloads: seq<seq<byte>>, size: nat)
    requires payloads != []
    ensures LineStep(probe, maxBytes, State(payloads, size, false), []) == Step(EMPTY, DATA_SPACE + Join(payloads), false)
  {
    hide Join;
  }

  lemma UnfinishedLineWaits(probe: Probe, maxBytes: nat, a: State, line: seq<byte>)
    requires IsData(line) && !a.overflow && !SingleLineComplete(probe, Payload(line))
    requires a.data != [] ==> !PendingComplete(probe, Join(a.data))
    requires a.size + |Payload(line)| + 1 <= maxBytes
    ensures LineStep(probe, maxBytes, a, line)
         == Step(State(a.data + [Payload(line)], a.size + |Payload(line)| + 1, false), [], false)
  {
    BlankIsNoData();
  }

  predicate AllEmitted(fates: seq<Fate>) { forall k | 0 <= k < |fates| :: fates[k].Emitted? }

  /** How often a run begins to drop an event. */
  function Overflows(probe: Probe, maxBytes: nat, lines: seq<seq<byte>>): nat {
    if lines == [] then 0
    else
      var before := lines[..|lines| - 1];
      Overflows(probe, maxBytes, before)
      + if !RunLines(probe, maxBytes, before).state.overflow && RunLines(probe, maxBytes, lines).state.overflow then 1 else 0
  }

  /** A skip is counted where an event begins to be dropped, and again at the blank line that ends it. */
  lemma SkippedStep(probe: Probe, maxBytes: nat, a: State, line: seq<byte>)
    ensures var step := LineStep(probe, maxBytes, a, line); step.skipped <==> a.overflow != step.next.overflow
  {
    hide Join, TrimLeft, Payload, SingleLineComplete, PendingComplete;
    BlankIsNoData();
  }

  /** Every dropped event is counted twice, one whose blank line is yet to come once. */
  lemma {:induction false} SkipsExactly(probe: Probe, maxBytes: nat, lines: seq<seq<byte>>)
    ensures var r := RunLines(probe, maxBytes, lines);
      r.skips == 2 * Overflows(probe, maxBytes, lines) - if r.state.overflow then 1 else 0
  {
    hide LineStep;
    if lines != [] {
      var before := lines[..|lines| - 1];
      SkipsExactly(probe, maxBytes, before);
      SkippedStep(probe, maxBytes, RunLines(probe, maxBytes, before).state, lines[|lines| - 1]);
    }
  }

  lemma EmittedSnoc(fates: seq<Fate>, f: Fate)
    ensures AllEmitted(fates + [f]) <==> AllEmitted(fates) && f.Emitted?
  {
    if AllEmitted(fates + [f]) {
      assert (fates + [f])[|fates|] == f;
      forall k | 0 <= k < |fates| ensures fates[k].Emitted? { assert (fates + [f])[k] == fates[k]; }
    }
  }

  /** A line drops something exactly when an event is being dropped or begins to be. */
  lemma EmittedStep(probe: Probe, maxBytes: nat, a: State, l: Ledger, line: seq<byte>, n: nat)
    ensures AllEmitted(Book(probe, maxBytes, a, l, line, n).fates) ==> AllEmitted(l.fates)
    ensures !a.overflow ==> (AllEmitted(Book(probe, maxBytes, a, l, line, n).fates)
                             <==> AllEmitted(l.fates) && !LineStep(probe, maxBytes, a, line).next.overflow)
  {
    hide AllEmitted, Join, TrimLeft, Payload, SingleLineComplete, PendingComplete;
    BlankIsNoData();
    var flushed := l.fates + [Emitted(l.waiting, DATA_SPACE + Join(a.data))];
    EmittedSnoc(l.fates, Emitted(l.waiting, DATA_SPACE + Join(a.data)));
    EmittedSnoc(flushed, Dropped([n]));
    EmittedSnoc(l.fates, Dropped([n]));
    EmittedSnoc(l.fates, Emitted([n], TrimLeft(line)));
    EmittedSnoc(l.fates, Dropped(l.waiting + [n]));
  }

  /** A run counts no skip exactly when it has dropped no line. */
  lemma {:induction false} NoSkipNothingDropped(probe: Probe, maxBytes: nat, lines: seq<seq<byte>>)
    ensures RunLines(probe, maxBytes, lines).skips == 0 <==> AllEmitted(LedgerOf(probe, maxBytes, lines).fates)
  {
    hide AllEmitted, Book, LineStep;
    if lines != [] {
      var n := |lines| - 1;
      NoSkipNothingDropped(probe, maxBytes, lines[..n]);
      SkipsExactly(probe, maxBytes, lines[..n]);
      SkipsExactly(probe, maxBytes, lines);
      var a, l := RunLines(probe, maxBytes, lines[..n]).state, LedgerOf(probe, maxBytes, lines[..n]);
      EmittedStep(probe, maxBytes, a, l, lines[n], n);
    } else {
      NothingIsEmitted();
    }
  }

  /** Two unfinished lines that do not fit together: nothing is sent, and the one dropped event counts two skips. */
  lemma OneDroppedEventTwoSkips(probe: Probe, maxBytes: nat, a: seq<byte>, b: seq<byte>)
    requires IsData(a) && IsData(b) && |Payload(a)| + 1 <= maxBytes < |Payload(a)| + |Payload(b)| + 2
    requires !SingleLineComplete(probe, Payload(a)) && !SingleLineComplete(probe, Payload(b))
    ensures RunLines(probe, maxBytes, [a, b, []]) == Run(EMPTY, [], 2)
  {
    var p := Payload(a);
    PairOfParts(p, p);
    StillUnfinished(probe, p);
    DataIsNotEmpty(b);
    UnfinishedWaitsFirst(probe, maxBytes, a);
    hide Join, IsData, Payload, TrimLeft, SingleLineComplete, PendingComplete, RunLines;
    assert LineStep(probe, maxBytes, State([p], |p| + 1, false), b) == Step(State([], 0, true), [], true);
    hide LineStep;
    PairAndBlank(a, b);
    RunSnoc(probe, maxBytes, [a], b);
    RunSnoc(probe, maxBytes, [a, b], []);
    assert LineStep(probe, maxBytes, State([], 0, true), []) == Step(EMPTY, [], true) by { BlankEndsDropping(probe, maxBytes); }
  }

  lemma BlankEndsDropping(probe: Probe, maxBytes: nat)
    ensures LineStep(probe, maxBytes, State([], 0, true), []) == Step(EMPTY, [], true)
  {}

  lemma NothingIsEmitted()
    ensures AllEmitted([])
  {}

  // ---------- overtaking ----------

  /** A complete line behind an unfinished one is passed on first, and the unfinished one at the end of the event. */
  lemma CompleteLineOvertakes(probe: Probe, maxBytes: nat, a: seq<byte>, b: seq<byte>)
    requires IsData(a) && IsData(b) && |Payload(a)| + 1 <= maxBytes
    requires !SingleLineComplete(probe, Payload(a)) && SingleLineComplete(probe, Payload(b))
    ensures RunLines(probe, maxBytes, [a, b, []]).events == [TrimLeft(b), DATA_SPACE + Payload(a)]
    ensures !NoOvertaking(probe, maxBytes, [a, b])
  {
    var p := Payload(a);
    assert b != [] && TrimLeft(b) != [] by { DataIsNotEmpty(b); }
    PairOfParts(p, p);
    StillUnfinished(probe, p);
    UnfinishedWaitsFirst(probe, maxBytes, a);
    var waiting := State([p], |p| + 1, false);
    hide Join, IsData, Payload, TrimLeft, SingleLineComplete, PendingComplete, RunLines;
    PassesWaiting(probe, maxBytes, waiting, b);
    BlankSends(probe, maxBytes, [p], |p| + 1);
    hide LineStep, Overtakes;
    PairAndBlank(a, b);
    RunSnoc(probe, maxBytes, [a], b);
    RunSnoc(probe, maxBytes, [a, b], []);
    PairAndBlank(TrimLeft(b), DATA_SPACE + p);
  }

  lemma PairAndBlank(a: seq<byte>, b: seq<byte>)
    ensures [a] + [b] == [a, b] && [] + [a] == [a] && [a, b] + [[]] == [a, b, []]
    ensures [a, b][..1] == [a] && [a, b][1] == b
  {}

  lemma PassesWaiting(probe: Probe, maxBytes: nat, a: State, line: seq<byte>)
    requires IsData(line) && !a.overflow && a.data != []
    requires !PendingComplete(probe, Join(a.data)) && SingleLineComplete(probe, Payload(line))
    ensures line != [] ==> LineStep(probe, maxBytes, a, line) == Step(a, TrimLeft(line), false) && Overtakes(probe, a, line)
  {
    hide Join, IsData, Payload, TrimLeft, SingleLineComplete, PendingComplete;
  }

  lemma StillUnfinished(probe: Probe, payload: seq<byte>)
    requires !SingleLineComplete(probe, payload)
    ensures !PendingComplete(probe, payload)
  {}

  lemma UnfinishedWaitsFirst(probe: Probe, maxBytes: nat, a: seq<byte>)
    requires IsData(a) && |Payload(a)| + 1 <= maxBytes && !SingleLineComplete(probe, Payload(a))
    ensures RunLines(probe, maxBytes, [a]) == Run(State([Payload(a)], |Payload(a)| + 1, false), [], 0)
  {
    hide IsData, Payload, SingleLineComplete, PendingComplete, Join, RunLines;
    var none: seq<seq<byte>> := [];
    assert [Payload(a)][..0] == none && BufferedSize([Payload(a)]) == |Payload(a)| + 1;
    UnfinishedLinesJoin(probe, maxBytes, [a], [Payload(a)]);
  }

  // ---------- blank lines ----------

  /**
   A blank line between two unfinished lines, such as a separated CRLF adds, cuts
   one event in two.
   */
  lemma BlankLineCutsAnEvent(probe: Probe, maxBytes: nat, a: seq<byte>, b: seq<byte>)
    requires IsData(a) && IsData(b) && |Payload(a)| + |Payload(b)| + 2 <= maxBytes
    requires !SingleLineComplete(probe, Payload(a)) && !SingleLineComplete(probe, Payload(b))
    ensures RunLines(probe, maxBytes, [a, b, []]).events == [DATA_SPACE + Join([Payload(a), Payload(b)])]
    ensures RunLines(probe, maxBytes, [a, [], b, []]).events == [DATA_SPACE + Payload(a), DATA_SPACE + Payload(b)]
  {
    var p, q := Payload(a), Payload(b);
    PairOfParts(p, q);
    hide Join, IsData, Payload, SingleLineComplete, PendingComplete, RunLines, TrimLeft;
    TogetherInOneEvent(probe, maxBytes, a, b);
    var none: seq<seq<byte>> := [];
    assert [p][..0] == none;
    UnfinishedLinesJoin(probe, maxBytes, [a], [p]);
    assert [a] + [[]] == [a, []] && [a, []] + [b] == [a, [], b] && [a, [], b] + [[]] == [a, [], b, []];
    UnfinishedLineWaits(probe, maxBytes, EMPTY, b);
    RunSnoc(probe, maxBytes, [a, []], b);
    RunSnoc(probe, maxBytes, [a, [], b], []);
    ConcatEmpty([q]);
  }

  lemma PairOfParts(p: seq<byte>, q: seq<byte>)
    ensures Join([p]) == p && Join([q]) == q
    ensures BufferedSize([p]) == |p| + 1 && BufferedSize([q]) == |q| + 1 && BufferedSize([p, q]) == |p| + |q| + 2
  {
    var none: seq<seq<byte>> := [];
    assert [p][..0] == none && [q][..0] == none && [p, q][..1] == [p];
  }

  lemma TogetherInOneEvent(probe: Probe, maxBytes: nat, a: seq<byte>, b: seq<byte>)
    requires IsData(a) && IsData(b) && |Payload(a)| + |Payload(b)| + 2 <= maxBytes
    requires !SingleLineComplete(probe, Payload(a)) && !SingleLineComplete(probe, Payload(b))
    ensures RunLines(probe, maxBytes, [a, b, []]).events == [DATA_SPACE + Join([Payload(a), Payload(b)])]
  {
    var p, q := Payload(a), Payload(b);
    PairOfParts(p, q);
    StillUnfinished(probe, p);
    hide Join, IsData, Payload, SingleLineComplete, PendingComplete, RunLines, TrimLeft;
    assert [p, q][..1] == [p];
    UnfinishedLinesJoin(probe, maxBytes, [a, b], [p, q]);
    assert [a, b] + [[]] == [a, b, []];
  }

  /** A blank line does nothing exactly when nothing waits and nothing is being dropped. */
  lemma BlankLineHarmless(probe: Probe, maxBytes: nat, a: State)
    requires StateOk(maxBytes, a)
    ensures LineStep(probe, maxBytes, a, []) == Step(a, [], false) <==> a == EMPTY
  {}
}
