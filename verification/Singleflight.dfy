/**
 * The refresh protocol shared by the credential and quota pollers: callers claim a refresh under a mutex and pass a
 * token to the loop through a channel of capacity one. Critical sections and channel operations are atomic steps.
 */
module Singleflight {
  import opened Bytes

  type Caller = nat

  /** `lastRefresh` is unset until the first accepted call. */
  datatype State = State(
    inFlight: bool, lastRefresh: Option<int>, now: int,
    claimed: set<Caller>,     // accepted callers that have not sent yet
    token: bool,              // the channel holds a token
    running: bool,            // the loop is refreshing
    exited: bool,             // the loop has seen the stop signal
    accepted: seq<int>,       // the times of the accepted calls
    completed: nat,           // refreshes done
    discarded: nat)           // tokens that met a full channel

  const START := State(false, None, 0, {}, false, false, false, [], 0, 0)

  datatype Step =
    | Call(caller: Caller, checked: int, stamped: int)   // the critical section of Refresh, with its two clock readings
    | Send(caller: Caller)
    | Receive
    | Finish
    | Exit

  predicate TooSoon(min: int, s: State, checked: int) {
    min > 0 && s.lastRefresh.Some? && checked - s.lastRefresh.value < min
  }

  predicate Accepts(min: int, s: State, checked: int) { !s.inFlight && !TooSoon(min, s, checked) }

  /** The clock does not go back, and a caller is in one call at a time. */
  predicate Enabled(s: State, step: Step) {
    match step
    case Call(c, checked, stamped) => s.now <= checked <= stamped && c !in s.claimed
    case Send(c) => c in s.claimed
    case Receive => s.token && !s.running && !s.exited
    case Finish => s.running
    case Exit => !s.running && !s.exited
  }

  function Next(min: int, s: State, step: Step): State
    requires Enabled(s, step)
  {
    match step
    case Call(c, checked, stamped) =>
      if Accepts(min, s, checked) then
        s.(inFlight := true, lastRefresh := Some(stamped), now := stamped, claimed := s.claimed + {c},
           accepted := s.accepted + [stamped])
      else s.(now := stamped)
    case Send(c) =>
      if s.token then s.(claimed := s.claimed - {c}, discarded := s.discarded + 1)
      else s.(claimed := s.claimed - {c}, token := true)
    case Receive => s.(token := false, running := true)
    case Finish => s.(running := false, inFlight := false, completed := s.completed + 1)
    case Exit => s.(exited := true)
  }

  /** The state after some steps, none when a step was not possible. */
  function Run(min: int, s: State, steps: seq<Step>): Option<State> {
    if steps == [] then Some(s)
    else match Run(min, s, steps[..|steps| - 1])
      case None => None
      case Some(t) =>
        var step := steps[|steps| - 1];
        if Enabled(t, step) then Some(Next(min, t, step)) else None
  }

  function Holders(s: State): nat { |s.claimed| + (if s.token then 1 else 0) + (if s.running then 1 else 0) }

  predicate Spaced(min: int, times: seq<int>) {
    forall i, j | 0 <= i < j < |times| :: times[i] <= times[j] && (min > 0 ==> times[j] - times[i] >= min)
  }

  predicate Inv(min: int, s: State) {
    && Holders(s) == (if s.inFlight then 1 else 0)
    && |s.accepted| == s.completed + Holders(s)
    && s.discarded == 0
    && !(s.exited && s.running)
    && (s.lastRefresh == if s.accepted == [] then None else Some(s.accepted[|s.accepted| - 1]))
    && (forall t | t in s.accepted :: t <= s.now)
    && Spaced(min, s.accepted)
  }

  lemma StepKeepsInv(min: int, s: State, step: Step)
    requires Inv(min, s) && Enabled(s, step)
    ensures Inv(min, Next(min, s, step))
  {
    hide Inv, Next;
    match step
    case Call(c, checked, stamped) => CallKeepsInv(min, s, c, checked, stamped);
    case Send(c) => SendKeepsInv(min, s, c);
    case _ => LoopKeepsInv(min, s, step);
  }

  lemma CallKeepsInv(min: int, s: State, c: Caller, checked: int, stamped: int)
    requires Inv(min, s) && Enabled(s, Call(c, checked, stamped))
    ensures Inv(min, Next(min, s, Call(c, checked, stamped)))
  {
    hide Spaced;
    if Accepts(min, s, checked) {
      AcceptedIsSpaced(min, s, checked, stamped);
      assert s.claimed == {};
      assert s.claimed + {c} == {c};
    }
  }

  lemma SendKeepsInv(min: int, s: State, c: Caller)
    requires Inv(min, s) && c in s.claimed
    ensures Inv(min, Next(min, s, Send(c)))
  {
    hide Spaced;
    assert |s.claimed| == |s.claimed - {c}| + 1;
  }

  lemma LoopKeepsInv(min: int, s: State, step: Step)
    requires Inv(min, s) && Enabled(s, step) && (step.Receive? || step.Finish? || step.Exit?)
    ensures Inv(min, Next(min, s, step))
  {
    hide Spaced;
  }

  lemma AcceptedIsSpaced(min: int, s: State, checked: int, stamped: int)
    requires Inv(min, s) && s.now <= checked <= stamped && Accepts(min, s, checked)
    ensures Spaced(min, s.accepted + [stamped])
  {
    var times := s.accepted + [stamped];
    forall i, j | 0 <= i < j < |times| ensures times[i] <= times[j] && (min > 0 ==> times[j] - times[i] >= min) {
      if j == |s.accepted| {
        var last := s.accepted[|s.accepted| - 1];
        assert times[i] == s.accepted[i] && times[i] in s.accepted;
        assert i < |s.accepted| - 1 ==> s.accepted[i] <= last;
      }
    }
  }

  /** In every interleaving a refresh is in flight exactly when one caller, one token or the loop holds it. */
  lemma {:induction false} EveryInterleavingKeepsInv(min: int, steps: seq<Step>)
    requires Run(min, START, steps).Some?
    ensures Inv(min, Run(min, START, steps).value)
  {
    if steps != [] {
      var rest := steps[..|steps| - 1];
      EveryInterleavingKeepsInv(min, rest);
      StepKeepsInv(min, Run(min, START, rest).value, steps[|steps| - 1]);
    }
  }

  /** A caller about to send finds the channel empty, so that no token is ever discarded. */
  lemma SendFindsRoom(min: int, steps: seq<Step>, c: Caller)
    requires Run(min, START, steps).Some? && c in Run(min, START, steps).value.claimed
    ensures var s := Run(min, START, steps).value;
      !s.token && !s.running && s.claimed == {c} && s.inFlight && Next(min, s, Send(c)).discarded == 0
  {
    EveryInterleavingKeepsInv(min, steps);
    var s := Run(min, START, steps).value;
    assert |s.claimed| == |s.claimed - {c}| + 1;
    assert s.claimed - {c} == {};
  }

  /** A call is turned away exactly when a refresh is still to be done, or the last accepted call is too recent. */
  lemma CallExactly(min: int, steps: seq<Step>, c: Caller, checked: int, stamped: int)
    requires Run(min, START, steps).Some? && Enabled(Run(min, START, steps).value, Call(c, checked, stamped))
    ensures var s := Run(min, START, steps).value; var t := Next(min, s, Call(c, checked, stamped));
      var busy := s.completed < |s.accepted|;
      var recent := min > 0 && s.accepted != [] && checked < s.accepted[|s.accepted| - 1] + min;
      t.accepted == if busy || recent then s.accepted else s.accepted + [stamped]
  {
    hide Spaced;
    EveryInterleavingKeepsInv(min, steps);
    var s := Run(min, START, steps).value;
    assert s.accepted + [stamped] != s.accepted;
  }

  /** Accepted calls are at least the interval apart, pairwise. */
  lemma AcceptedCallsAreSpaced(min: int, steps: seq<Step>)
    requires Run(min, START, steps).Some? && min > 0
    ensures var times := Run(min, START, steps).value.accepted;
      forall i, j | 0 <= i < j < |times| :: times[j] - times[i] >= min
  {
    EveryInterleavingKeepsInv(min, steps);
  }

  /** What is left to do for the refresh in flight. */
  function Pending(s: State): seq<Step>
    requires Holders(s) <= 1
  {
    if s.running then [Finish] else if s.token then [Receive, Finish]
    else if s.claimed != {} then
      assert |s.claimed| == 1;
      [Send(TheOne(s.claimed)), Receive, Finish]
    else []
  }

  function TheOne(callers: set<Caller>): Caller
    requires |callers| == 1
  {
    OnlyOne(callers);
    var c :| c in callers;
    c
  }

  lemma OnlyOne(callers: set<Caller>)
    requires |callers| == 1
    ensures exists c :: callers == {c}
    ensures forall c, d | c in callers && d in callers :: c == d
  {
    var c :| c in callers;
    assert |callers - {c}| == 0;
    assert callers == {c};
  }

  /** No accepted refresh is lost: while the loop lives, the pending steps are possible and complete all of them. */
  lemma PendingStepsServe(min: int, steps: seq<Step>)
    requires Run(min, START, steps).Some? && !Run(min, START, steps).value.exited
    ensures Inv(min, Run(min, START, steps).value)
    ensures var s := Run(min, START, steps).value;
      var t := Run(min, s, Pending(s));
      t.Some? && !t.value.inFlight && t.value.completed == |t.value.accepted| == |s.accepted|
  {
    hide Spaced;
    EveryInterleavingKeepsInv(min, steps);
    var s := Run(min, START, steps).value;
    if s.running {
      OneStep(min, s, Finish);
    } else if s.token {
      OneStep(min, s, Receive);
      OneStep(min, Next(min, s, Receive), Finish);
      TwoSteps(min, s, Receive, Finish);
    } else if s.claimed != {} {
      var send := Send(TheOne(s.claimed));
      OnlyOne(s.claimed);
      assert s.claimed - {send.caller} == {};
      ThreeSteps(min, s, send, Receive, Finish);
    }
  }

  lemma OneStep(min: int, s: State, a: Step)
    requires Enabled(s, a)
    ensures Run(min, s, [a]) == Some(Next(min, s, a))
  {
    assert [a][..0] == [];
  }

  lemma TwoSteps(min: int, s: State, a: Step, b: Step)
    requires Enabled(s, a) && Enabled(Next(min, s, a), b)
    ensures Run(min, s, [a, b]) == Some(Next(min, Next(min, s, a), b))
  {
    OneStep(min, s, a);
    assert [a, b][..1] == [a];
  }

  lemma ThreeSteps(min: int, s: State, a: Step, b: Step, c: Step)
    requires Enabled(s, a) && Enabled(Next(min, s, a), b) && Enabled(Next(min, Next(min, s, a), b), c)
    ensures Run(min, s, [a, b, c]) == Some(Next(min, Next(min, Next(min, s, a), b), c))
  {
    TwoSteps(min, s, a, b);
    assert [a, b, c][..2] == [a, b];
  }

  /** Once the loop has exited nothing completes any more, and a refresh left in flight keeps out every later call. */
  lemma {:induction false} AfterExit(min: int, before: seq<Step>, later: seq<Step>)
    requires Run(min, START, before).Some? && Run(min, START, before).value.exited
    requires Run(min, Run(min, START, before).value, later).Some?
    ensures var s := Run(min, START, before).value;
      var t := Run(min, s, later).value;
      && Inv(min, t) && t.exited && t.completed == s.completed && |t.accepted| <= s.completed + 1
      && (s.inFlight ==> t.inFlight && t.accepted == s.accepted)
  {
    hide Spaced;
    var s := Run(min, START, before).value;
    EveryInterleavingKeepsInv(min, before);
    if later != [] {
      AfterExit(min, before, later[..|later| - 1]);
      StepKeepsInv(min, Run(min, s, later[..|later| - 1]).value, later[|later| - 1]);
    }
  }
}
