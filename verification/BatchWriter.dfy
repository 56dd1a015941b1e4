/**
 The asynchronous batch writer as a concurrent protocol: any number of producers,
 one loop, and a caller that stops it, interleaved step by step.  A step that is
 not enabled leaves the state alone, so a run is any sequence of steps.
 */
module BatchWriter {
  import opened Bytes

  /** A usage event; its identity is all the protocol needs. */
  type Event = nat

  /** Inside `Enqueue`: the stop flag was read as unset, or the event was sent but not yet counted. */
  datatype Producer = Checked(ev: Event) | Sent

  datatype Resume = ToSelect | ToDrain | ToExit

  datatype Loop =
    | NotStarted
    | Select
    | Draining
    | Inserting(retry: bool, resume: Resume)
    | Settled(written: bool, resume: Resume)
    | Done

  datatype Config = Config(capacity: nat, batchSize: nat)

  datatype State = State(
    queue: seq<Event>, queueDepth: int, dropped: nat, dbWriteErrors: nat,
    stopped: bool, stopClosed: bool, stopReturned: bool, neverStarted: bool,
    batch: seq<Event>, loop: Loop, producers: map<nat, Producer>,
    // the record of the run, for the statements about it
    sent: seq<Event>, senders: seq<nat>, log: seq<Flushed>, persisted: seq<Event>,
    calls: nat, accepted: nat,
    sentAtStop: nat, checkedAtStop: nat,   // at the flag: how much was sent, how many producers had read it as unset
    waitingAtStop: map<nat, Event>,        // and which, with their events
    sentAtDrain: nat)                      // how much was sent when the loop last found the queue empty

  /** A batch that left the writer, and whether the sink took it. */
  datatype Flushed = Flushed(events: seq<Event>, written: bool)

  const START: State := State([], 0, 0, 0, false, false, false, false, [], NotStarted, map[], [], [], [], [], 0, 0, 0, 0, map[], 0)

  datatype Label =
    | Start | StopFlag | StopClose | StopReturn
    | Check(p: nat, ev: Event) | Send(p: nat) | Count(p: nat)
    | Receive | Tick | SeeStop | Drained | Insert(ok: bool) | FinishFlush

  /** The steps of the loop change nothing of what has been sent and who may still send. */
  predicate SameSenders(s: State, t: State) {
    t.sent == s.sent && t.senders == s.senders && t.producers == s.producers && t.stopped == s.stopped
    && t.sentAtStop == s.sentAtStop && t.waitingAtStop == s.waitingAtStop
  }

  /** The loop goes on to flush a batch that is not empty. */
  function BeginFlush(s: State, resume: Resume): (t: State)
    ensures SameSenders(s, t)
  {
    if s.batch == [] then s.(loop := Resumed(resume)) else s.(loop := Inserting(false, resume))
  }

  function Resumed(r: Resume): Loop {
    match r case ToSelect => Select case ToDrain => Draining case ToExit => Done
  }

  function SetFlag(s: State): State {
    if s.stopped then s
    else s.(stopped := true, sentAtStop := |s.sent|, checkedAtStop := |CheckedIn(s.producers)|,
            waitingAtStop := Waiting(s.producers))
  }

  /** Stop returns when the loop has ended, or was never started. */
  function ReturnFromStop(s: State): State {
    if s.stopReturned || !s.stopClosed || (s.loop != Done && s.loop != NotStarted) then s
    else s.(stopReturned := true, neverStarted := s.loop == NotStarted)
  }

  function CheckFlag(s: State, p: nat, ev: Event): State {
    if p in s.producers then s
    else if s.stopped then s.(calls := s.calls + 1, dropped := s.dropped + 1)
    else s.(calls := s.calls + 1, producers := s.producers[p := Checked(ev)])
  }

  function SendEvent(c: Config, s: State, p: nat): State {
    if p !in s.producers || s.producers[p].Sent? then s
    else if |s.queue| < c.capacity then
      s.(queue := s.queue + [s.producers[p].ev], sent := s.sent + [s.producers[p].ev], senders := s.senders + [p],
         producers := s.producers[p := Sent])
    else s.(dropped := s.dropped + 1, producers := s.producers - {p})
  }

  function CountEvent(s: State, p: nat): State {
    if p !in s.producers || s.producers[p].Checked? then s
    else s.(queueDepth := s.queueDepth + 1, accepted := s.accepted + 1, producers := s.producers - {p})
  }

  function ReceiveEvent(c: Config, s: State): (t: State)
    ensures SameSenders(s, t)
  {
    if (s.loop != Select && s.loop != Draining) || s.queue == [] then s
    else
      var s' := s.(queue := s.queue[1..], batch := s.batch + [s.queue[0]]);
      if |s'.batch| >= c.batchSize then BeginFlush(s', if s.loop == Select then ToSelect else ToDrain) else s'
  }

  function EndDrain(s: State): (t: State)
    ensures SameSenders(s, t)
  {
    if s.loop == Draining && s.queue == [] then BeginFlush(s.(sentAtDrain := |s.sent|), ToExit) else s
  }

  function InsertBatch(s: State, ok: bool): (t: State)
    ensures SameSenders(s, t)
  {
    if !s.loop.Inserting? then s
    else if ok then s.(persisted := s.persisted + s.batch, loop := Settled(true, s.loop.resume))
    else if !s.loop.retry then s.(loop := Inserting(true, s.loop.resume))
    else s.(dbWriteErrors := s.dbWriteErrors + 1, loop := Settled(false, s.loop.resume))
  }

  function EndFlush(s: State): (t: State)
    ensures SameSenders(s, t)
  {
    if !s.loop.Settled? then s
    else s.(queueDepth := s.queueDepth - |s.batch|, log := s.log + [Flushed(s.batch, s.loop.written)],
            batch := [], loop := Resumed(s.loop.resume))
  }

  function Step(c: Config, s: State, l: Label): State {
    match l
    case Start => if s.loop == NotStarted then s.(loop := Select) else s
    case StopFlag => SetFlag(s)
    case StopClose => if s.stopped then s.(stopClosed := true) else s
    case StopReturn => ReturnFromStop(s)
    case Check(p, ev) => CheckFlag(s, p, ev)
    case Send(p) => SendEvent(c, s, p)
    case Count(p) => CountEvent(s, p)
    case Receive => ReceiveEvent(c, s)
    case Tick => if s.loop == Select then BeginFlush(s, ToSelect) else s
    case SeeStop => if s.loop == Select && s.stopClosed then s.(loop := Draining) else s
    case Drained => EndDrain(s)
    case Insert(ok) => InsertBatch(s, ok)
    case FinishFlush => EndFlush(s)
  }

  function Run(c: Config, labels: seq<Label>): State {
    if labels == [] then START else Step(c, Run(c, labels[..|labels| - 1]), labels[|labels| - 1])
  }

  // ---------- counting producers ----------

  function CheckedIn(ps: map<nat, Producer>): set<nat> { set p | p in ps && ps[p].Checked? }

  /** The producers that have read the flag as unset and not sent yet, with their events. */
  function Waiting(ps: map<nat, Producer>): map<nat, Event> { map p | p in ps && ps[p].Checked? :: ps[p].ev }

  function SentIn(ps: map<nat, Producer>): set<nat> { set p | p in ps && ps[p].Sent? }

  lemma ProducerChecks(ps: map<nat, Producer>, p: nat, ev: Event)
    requires p !in ps
    ensures |CheckedIn(ps[p := Checked(ev)])| == |CheckedIn(ps)| + 1
    ensures SentIn(ps[p := Checked(ev)]) == SentIn(ps)
  {
    assert CheckedIn(ps[p := Checked(ev)]) == CheckedIn(ps) + {p};
  }

  lemma ProducerSends(ps: map<nat, Producer>, p: nat)
    requires p in ps && ps[p].Checked?
    ensures |CheckedIn(ps[p := Sent])| == |CheckedIn(ps)| - 1 == |CheckedIn(ps - {p})|
    ensures |SentIn(ps[p := Sent])| == |SentIn(ps)| + 1 && SentIn(ps - {p}) == SentIn(ps)
  {
    assert p in CheckedIn(ps);
    assert CheckedIn(ps[p := Sent]) == CheckedIn(ps) - {p} == CheckedIn(ps - {p});
    assert SentIn(ps[p := Sent]) == SentIn(ps) + {p};
  }

  lemma ProducerReturns(ps: map<nat, Producer>, p: nat)
    requires p in ps && ps[p].Sent?
    ensures |SentIn(ps - {p})| == |SentIn(ps)| - 1 && CheckedIn(ps - {p}) == CheckedIn(ps)
  {
    assert p in SentIn(ps);
    assert SentIn(ps - {p}) == SentIn(ps) - {p};
  }

  // ---------- what left the writer ----------

  function Handed(log: seq<Flushed>): seq<Event> {
    if log == [] then [] else Handed(log[..|log| - 1]) + log[|log| - 1].events
  }

  function Written(log: seq<Flushed>): seq<Event> {
    if log == [] then []
    else Written(log[..|log| - 1]) + if log[|log| - 1].written then log[|log| - 1].events else []
  }

  function Failures(log: seq<Flushed>): nat {
    if log == [] then 0 else Failures(log[..|log| - 1]) + if log[|log| - 1].written then 0 else 1
  }

  lemma LogGrows(log: seq<Flushed>, f: Flushed)
    ensures Handed(log + [f]) == Handed(log) + f.events
    ensures Written(log + [f]) == Written(log) + if f.written then f.events else []
    ensures Failures(log + [f]) == Failures(log) + if f.written then 0 else 1
  {
    ConcatSnoc(log, f);
  }

  // ---------- conservation ----------

  /** First in, first out: everything sent was handed on, is in the batch, or still queued. */
  ghost predicate Conserved(s: State) {
    s.sent == Handed(s.log) + s.batch + s.queue
  }

  /** Every call sent its event once, was counted as dropped, or is still deciding. */
  ghost predicate Accounted(s: State) {
    && s.calls == |s.sent| + s.dropped + |CheckedIn(s.producers)|
    && s.accepted + |SentIn(s.producers)| == |s.sent|
  }

  /** The depth counter lags behind by the producers that have sent but not yet counted. */
  ghost predicate DepthOk(s: State) {
    s.queueDepth == |s.queue| + |s.batch| - |SentIn(s.producers)|
  }

  ghost predicate Bounded(c: Config, s: State) {
    && |s.queue| <= c.capacity && |s.batch| <= Max(c.batchSize, 1)
    && (s.loop == Select || s.loop == Draining ==> |s.batch| < Max(c.batchSize, 1))
    && (s.loop.Inserting? || s.loop.Settled? ==> s.batch != [])
    && (s.loop == NotStarted || s.loop == Done ==> s.batch == [])
  }

  /** The sink is transactional: a failed insert persists nothing, and a retry is not a second copy. */
  ghost predicate PersistedOk(s: State) {
    && s.persisted == Written(s.log) + (if s.loop.Settled? && s.loop.written then s.batch else [])
    && s.dbWriteErrors == Failures(s.log) + (if s.loop.Settled? && !s.loop.written then 1 else 0)
  }

  function ResumeOf(l: Loop): Option<Resume> {
    match l case Inserting(_, r) => Some(r) case Settled(_, r) => Some(r) case _ => None
  }

  /** Once the flag is set, only producers that had already read it can still send. */
  ghost predicate StopOk(s: State) {
    && (s.stopClosed ==> s.stopped)
    && (s.loop == Draining || s.loop == Done || ResumeOf(s.loop) in {Some(ToDrain), Some(ToExit)} ==> s.stopClosed)
    && (s.stopped ==> s.sentAtStop <= |s.sent| && |s.sent| - s.sentAtStop + |CheckedIn(s.producers)| <= s.checkedAtStop)
    && (ResumeOf(s.loop) == Some(ToExit) || s.loop == Done ==> s.sentAtStop <= |Handed(s.log)| + |s.batch|)
    && (s.stopReturned && !s.neverStarted ==> s.loop == Done)
  }

  ghost predicate Inv(c: Config, s: State) {
    Conserved(s) && Accounted(s) && DepthOk(s) && Bounded(c, s) && PersistedOk(s) && StopOk(s)
  }

  lemma CheckKeepsInv(c: Config, s: State, p: nat, ev: Event)
    requires Inv(c, s)
    ensures Inv(c, Step(c, s, Check(p, ev)))
  {
    hide CheckedIn, SentIn, Handed, Written, Failures;
    if p !in s.producers { ProducerChecks(s.producers, p, ev); }
  }

  lemma SendKeepsInv(c: Config, s: State, p: nat)
    requires Inv(c, s)
    ensures Inv(c, Step(c, s, Send(p)))
  {
    hide CheckedIn, SentIn, Handed, Written, Failures;
    if p in s.producers && s.producers[p].Checked? {
      ProducerSends(s.producers, p);
      ConcatAssociates(Handed(s.log) + s.batch, s.queue, [s.producers[p].ev]);
    }
  }

  lemma CountKeepsInv(c: Config, s: State, p: nat)
    requires Inv(c, s)
    ensures Inv(c, Step(c, s, Count(p)))
  {
    hide CheckedIn, SentIn, Handed, Written, Failures;
    if p in s.producers && s.producers[p].Sent? { ProducerReturns(s.producers, p); }
  }

  lemma ReceiveKeepsInv(c: Config, s: State)
    requires Inv(c, s)
    ensures Inv(c, Step(c, s, Receive))
  {
    hide CheckedIn, SentIn, Handed, Written, Failures;
    if s.queue != [] { OneTaken(Handed(s.log), s.batch, s.queue); }
  }

  lemma OneTaken(handed: seq<Event>, batch: seq<Event>, queue: seq<Event>)
    requires queue != []
    ensures handed + batch + queue == handed + (batch + [queue[0]]) + queue[1..]
  {
    assert queue == [queue[0]] + queue[1..];
    ConcatAssociates(handed + batch, [queue[0]], queue[1..]);
    ConcatAssociates(handed, batch, [queue[0]]);
  }

  lemma InsertChangesOnly(s: State, ok: bool)
    ensures var t := InsertBatch(s, ok);
      && t == s.(persisted := t.persisted, loop := t.loop, dbWriteErrors := t.dbWriteErrors)
      && (if s.loop.Inserting? then (t.loop.Inserting? || t.loop.Settled?) && ResumeOf(t.loop) == ResumeOf(s.loop) else t == s)
  {}

  lemma InsertPersists(s: State, ok: bool)
    requires PersistedOk(s)
    ensures PersistedOk(InsertBatch(s, ok))
  {
    hide Written, Failures;
    ConcatEmpty(Written(s.log));
  }

  lemma InsertKeepsInv(c: Config, s: State, ok: bool)
    requires Inv(c, s)
    ensures Inv(c, Step(c, s, Insert(ok)))
  {
    hide CheckedIn, SentIn, Handed, PersistedOk, InsertBatch;
    InsertChangesOnly(s, ok);
    InsertPersists(s, ok);
  }

  lemma FinishKeepsInv(c: Config, s: State)
    requires Inv(c, s)
    ensures Inv(c, Step(c, s, FinishFlush))
  {
    hide CheckedIn, SentIn, Handed, Written, Failures;
    if s.loop.Settled? {
      LogGrows(s.log, Flushed(s.batch, s.loop.written));
      ConcatEmpty(Handed(s.log) + s.batch);
      ConcatEmpty(Written(s.log));
      ConcatEmpty(Written(s.log) + s.batch);
    }
  }

  lemma ControlKeepsInv(c: Config, s: State, l: Label)
    requires Inv(c, s) && (l.Start? || l.StopFlag? || l.StopClose? || l.StopReturn? || l.Tick? || l.SeeStop? || l.Drained?)
    ensures Inv(c, Step(c, s, l))
  {
    hide CheckedIn, SentIn, Handed, Written, Failures;
    if l.Drained? && s.loop == Draining && s.queue == [] {
      ConcatEmpty(Handed(s.log) + s.batch);
    }
  }

  /** Conservation, accounting, depth, bounds, persistence and the stop rule hold in every interleaving. */
  lemma {:induction false} EveryInterleavingKeepsInv(c: Config, labels: seq<Label>)
    ensures Inv(c, Run(c, labels))
  {
    hide Step, Inv;
    if labels == [] {
      StartIsOk(c);
    } else {
      var n := |labels| - 1;
      EveryInterleavingKeepsInv(c, labels[..n]);
      var s, l := Run(c, labels[..n]), labels[n];
      if l.Check? {
        CheckKeepsInv(c, s, l.p, l.ev);
      } else if l.Send? {
        SendKeepsInv(c, s, l.p);
      } else if l.Count? {
        CountKeepsInv(c, s, l.p);
      } else if l.Receive? {
        ReceiveKeepsInv(c, s);
      } else if l.Insert? {
        InsertKeepsInv(c, s, l.ok);
      } else if l.FinishFlush? {
        FinishKeepsInv(c, s);
      } else {
        ControlKeepsInv(c, s, l);
      }
    }
  }

  lemma StartIsOk(c: Config)
    ensures Inv(c, START)
  {
    assert CheckedIn(map[]) == {} && SentIn(map[]) == {};
  }

  // ---------- shutdown ----------

  /** Every event sent after the flag is that of a producer of its own, which had read the flag before. */
  ghost predicate FromWaiting(s: State) {
    && |s.senders| == |s.sent|
    && (forall k | s.sentAtStop <= k < |s.sent| :: s.senders[k] in s.waitingAtStop && s.waitingAtStop[s.senders[k]] == s.sent[k])
    && (forall j, k | s.sentAtStop <= j < k < |s.sent| :: s.senders[j] != s.senders[k])
  }

  /** Who can still send after the flag: `waiting` are the producers between check and send, `early` those at the flag. */
  ghost predicate LateFacts(sent: seq<Event>, senders: seq<nat>, waiting: map<nat, Event>, at: nat, early: map<nat, Event>) {
    && at <= |sent| == |senders|
    && (forall k | at <= k < |sent| :: senders[k] in early && early[senders[k]] == sent[k] && senders[k] !in waiting)
    && (forall j, k | at <= j < k < |sent| :: senders[j] != senders[k])
    && (forall p | p in waiting :: p in early && early[p] == waiting[p])
  }

  ghost predicate LateOk(s: State) {
    && |s.senders| == |s.sent|
    && (s.stopped ==> LateFacts(s.sent, s.senders, Waiting(s.producers), s.sentAtStop, s.waitingAtStop))
  }

  lemma FactsFewer(sent: seq<Event>, senders: seq<nat>, waiting: map<nat, Event>, at: nat, early: map<nat, Event>, p: nat)
    requires LateFacts(sent, senders, waiting, at, early)
    ensures LateFacts(sent, senders, waiting - {p}, at, early)
  {}

  lemma FactsSent(sent: seq<Event>, senders: seq<nat>, waiting: map<nat, Event>, at: nat, early: map<nat, Event>, p: nat)
    requires LateFacts(sent, senders, waiting, at, early) && p in waiting
    ensures LateFacts(sent + [waiting[p]], senders + [p], waiting - {p}, at, early)
  {
    ConcatSnoc(sent, waiting[p]);
    ConcatSnoc(senders, p);
  }

  lemma LateStopKept(c: Config, s: State)
    requires LateOk(s)
    ensures LateOk(Step(c, s, StopFlag))
  {
    hide CheckedIn, Waiting;
  }

  lemma LateCheckKept(c: Config, s: State, p: nat, ev: Event)
    requires LateOk(s)
    ensures LateOk(Step(c, s, Check(p, ev)))
  {
    hide LateFacts, Waiting, CheckedIn;
  }

  lemma LateSendKept(c: Config, s: State, p: nat)
    requires LateOk(s)
    ensures LateOk(Step(c, s, Send(p)))
  {
    hide LateFacts, CheckedIn;
    if p in s.producers && s.producers[p].Checked? {
      var waiting := Waiting(s.producers);
      assert p in waiting && waiting[p] == s.producers[p].ev;
      assert Waiting(s.producers[p := Sent]) == waiting - {p} == Waiting(s.producers - {p});
      if s.stopped {
        FactsFewer(s.sent, s.senders, waiting, s.sentAtStop, s.waitingAtStop, p);
        FactsSent(s.sent, s.senders, waiting, s.sentAtStop, s.waitingAtStop, p);
      }
    }
  }

  lemma LateCountKept(c: Config, s: State, p: nat)
    requires LateOk(s)
    ensures LateOk(Step(c, s, Count(p)))
  {
    hide LateFacts, CheckedIn;
    if p in s.producers && s.producers[p].Sent? { assert Waiting(s.producers - {p}) == Waiting(s.producers); }
  }

  lemma LateLoopKept(c: Config, s: State, l: Label)
    requires LateOk(s) && (l.Receive? || l.Drained? || l.Insert? || l.FinishFlush?)
    ensures LateOk(Step(c, s, l))
  {
    hide LateFacts, Waiting, ReceiveEvent, EndDrain, InsertBatch, EndFlush;
  }

  lemma LateControlKept(c: Config, s: State, l: Label)
    requires LateOk(s) && (l.Start? || l.StopClose? || l.StopReturn? || l.Tick? || l.SeeStop?)
    ensures LateOk(Step(c, s, l))
  {
    hide LateFacts, Waiting;
  }

  lemma LateKept(c: Config, s: State, l: Label)
    requires LateOk(s)
    ensures LateOk(Step(c, s, l))
  {
    hide Step, LateOk;
    match l
    case StopFlag => LateStopKept(c, s);
    case Check(p, ev) => LateCheckKept(c, s, p, ev);
    case Send(p) => LateSendKept(c, s, p);
    case Count(p) => LateCountKept(c, s, p);
    case _ =>
      if l.Receive? || l.Drained? || l.Insert? || l.FinishFlush? { LateLoopKept(c, s, l); } else { LateControlKept(c, s, l); }
  }

  /** Past the drain, what was sent until then is handed on or in the last batch, and the rest is the queue. */
  ghost predicate DrainOk(s: State) {
    ResumeOf(s.loop) == Some(ToExit) || s.loop == Done ==>
      s.sentAtStop <= s.sentAtDrain <= |s.sent|
      && Handed(s.log) + s.batch == s.sent[..s.sentAtDrain] && s.queue == s.sent[s.sentAtDrain..]
  }

  lemma DrainKept(c: Config, s: State, l: Label)
    requires Inv(c, s) && DrainOk(s)
    ensures DrainOk(Step(c, s, l))
  {
    hide Step, DrainOk, Inv;
    if l.Drained? {
      DrainBegins(c, s);
    } else if l.FinishFlush? {
      DrainFlushes(c, s);
    } else if l.Send? {
      DrainAndSend(c, s, l.p);
    } else {
      DrainUntouched(c, s, l);
    }
  }

  lemma DrainBegins(c: Config, s: State)
    requires Inv(c, s) && DrainOk(s)
    ensures DrainOk(Step(c, s, Drained))
  {
    hide Accounted, DepthOk, PersistedOk, Bounded, CheckedIn, Handed;
    ConcatEmpty(Handed(s.log) + s.batch);
  }

  lemma DrainFlushes(c: Config, s: State)
    requires DrainOk(s)
    ensures DrainOk(Step(c, s, FinishFlush))
  {
    hide Handed, Written, Failures;
    if s.loop.Settled? {
      LogGrows(s.log, Flushed(s.batch, s.loop.written));
      ConcatEmpty(Handed(s.log) + s.batch);
    }
  }

  lemma SendChangesOnly(c: Config, s: State, p: nat)
    ensures var t := SendEvent(c, s, p);
      && t == s.(queue := t.queue, sent := t.sent, senders := t.senders, producers := t.producers, dropped := t.dropped)
      && ((t.sent == s.sent && t.queue == s.queue)
          || (p in s.producers && s.producers[p].Checked?
              && t.sent == s.sent + [s.producers[p].ev] && t.queue == s.queue + [s.producers[p].ev]))
  {}

  lemma DrainAndSend(c: Config, s: State, p: nat)
    requires DrainOk(s)
    ensures DrainOk(Step(c, s, Send(p)))
  {
    hide Handed, SendEvent;
    SendChangesOnly(c, s, p);
    if SendEvent(c, s, p).sent != s.sent && s.sentAtDrain <= |s.sent| {
      SentOneMore(s.sent, s.producers[p].ev, s.sentAtDrain);
    }
  }

  lemma DrainUntouched(c: Config, s: State, l: Label)
    requires Inv(c, s) && DrainOk(s) && !l.Drained? && !l.FinishFlush? && !l.Send?
    ensures DrainOk(Step(c, s, l))
  {
    hide Conserved, Accounted, DepthOk, PersistedOk, Bounded, CheckedIn, Waiting, Handed, InsertBatch;
    if l.Insert? { InsertChangesOnly(s, l.ok); }
  }

  lemma SentOneMore(sent: seq<Event>, ev: Event, at: nat)
    requires at <= |sent|
    ensures (sent + [ev])[..at] == sent[..at] && (sent + [ev])[at..] == sent[at..] + [ev]
  {}

  lemma {:induction false} EveryInterleavingIsOrderly(c: Config, labels: seq<Label>)
    ensures LateOk(Run(c, labels)) && DrainOk(Run(c, labels))
  {
    hide Step, Inv, LateOk, DrainOk;
    if labels == [] {
      assert LateOk(START) && DrainOk(START) by { StartIsOrderly(); }
    } else {
      var n := |labels| - 1;
      EveryInterleavingIsOrderly(c, labels[..n]);
      EveryInterleavingKeepsInv(c, labels[..n]);
      LateKept(c, Run(c, labels[..n]), labels[n]);
      DrainKept(c, Run(c, labels[..n]), labels[n]);
    }
  }

  lemma StartIsOrderly()
    ensures LateOk(START) && DrainOk(START)
  {}

  /**
   When the Stop that set the flag has returned to a writer that was started, everything sent before the flag has been
   handed to the sink, in order. What is left in the queue is exactly what was sent since the loop last found it empty,
   and each event of it is that of a producer of its own that had read the flag as unset before the Stop.
   */
  lemma StopDrains(c: Config, labels: seq<Label>)
    requires Run(c, labels).stopReturned && !Run(c, labels).neverStarted
    ensures var s := Run(c, labels);
      && s.sentAtStop <= s.sentAtDrain <= |s.sent| == |s.senders|
      && Handed(s.log) == s.sent[..s.sentAtDrain] && s.queue == s.sent[s.sentAtDrain..]
      && FromWaiting(s)
      && |s.queue| + |CheckedIn(s.producers)| <= s.checkedAtStop
  {
    hide CheckedIn, Handed;
    EveryInterleavingKeepsInv(c, labels);
    EveryInterleavingIsOrderly(c, labels);
    ConcatEmpty(Handed(Run(c, labels).log));
  }

  // ---------- everything is flushed ----------

  /** The loop runs, and nobody has asked it to stop. */
  predicate Running(s: State) {
    !s.stopClosed && (s.loop == Select || ResumeOf(s.loop) == Some(ToSelect))
  }

  /** What the loop does next on its own: it takes what is queued, and flushes at a tick; a flaky sink takes only a retry. */
  function NextFlush(s: State, flaky: bool): Label {
    match s.loop
    case Inserting(retry, _) => Insert(retry || !flaky)
    case Settled(_, _) => FinishFlush
    case _ => if s.queue == [] then Tick else Receive
  }

  /** Nothing is queued or waits in the batch. */
  predicate AtRest(s: State) { s.queue == [] && s.batch == [] && s.loop == Select }

  /** A bound on the steps to an empty queue and batch. */
  function FlushWork(s: State): nat { 5 * |s.queue| + FlushLeft(s) }

  /** Each such step leaves less to do, loses nothing, and counts no write error. */
  lemma FlushStep(c: Config, s: State, flaky: bool)
    requires Running(s) && Bounded(c, s) && !AtRest(s)
    ensures var t := Step(c, s, NextFlush(s, flaky));
      && Running(t) && FlushWork(t) < FlushWork(s) && t.sent == s.sent && t.dbWriteErrors == s.dbWriteErrors
  {
    hide Step, Bounded;
    if s.loop == Select { SelectFlushes(c, s); } else { InsertFlushes(c, s, flaky); }
  }

  lemma SelectFlushes(c: Config, s: State)
    requires Running(s) && s.loop == Select && !AtRest(s)
    ensures var t := Step(c, s, NextFlush(s, false));
      && Running(t) && FlushWork(t) < FlushWork(s) && t.sent == s.sent && t.dbWriteErrors == s.dbWriteErrors
    ensures NextFlush(s, true) == NextFlush(s, false)
  {
    hide CheckedIn;
  }

  lemma InsertFlushes(c: Config, s: State, flaky: bool)
    requires Running(s) && Bounded(c, s) && s.loop != Select
    ensures var t := Step(c, s, NextFlush(s, flaky));
      && Running(t) && FlushWork(t) < FlushWork(s) && t.sent == s.sent && t.dbWriteErrors == s.dbWriteErrors
  {
    hide CheckedIn;
  }

  /** A running loop is never in any other state. */
  lemma RunningOrStopped(s: State)
    requires StopOk(s) && s.loop != NotStarted && !s.stopClosed
    ensures Running(s)
  {
    if ResumeOf(s.loop).Some? {
      match ResumeOf(s.loop).value
      case ToSelect =>
      case ToDrain =>
      case ToExit =>
    }
  }

  /**
   While nobody stops it, a started loop needs only a bounded number of its own steps, the ticker's above all, to hand
   everything on that was sent; with a sink that takes every batch, or each at its second attempt, no write error is
   counted, and everything is persisted when none was before.
   */
  lemma {:induction false} EverythingIsFlushed(c: Config, labels: seq<Label>, flaky: bool) returns (rest: seq<Label>)
    requires Run(c, labels).loop != NotStarted && !Run(c, labels).stopClosed
    ensures OnlyOwn(rest) && |rest| <= FlushWork(Run(c, labels)) <= 5 * c.capacity + 4
    ensures var s, t := Run(c, labels), Run(c, labels + rest);
      && t.queue == [] == t.batch && t.loop == Select && t.sent == s.sent && Handed(t.log) == t.sent
      && t.dbWriteErrors == s.dbWriteErrors && (t.dbWriteErrors == 0 ==> t.persisted == t.sent)
    decreases FlushWork(Run(c, labels))
  {
    hide Run, Step, Handed, Written, Failures, CheckedIn, SentIn;
    var s := Run(c, labels);
    EveryInterleavingKeepsInv(c, labels);
    RunningOrStopped(s);
    if AtRest(s) {
      rest := [];
      ConcatEmpty(labels);
      AllHanded(c, s);
    } else {
      var l := NextFlush(s, flaky);
      FlushStep(c, s, flaky);
      RunSnoc(c, labels, l);
      var next := EverythingIsFlushed(c, labels + [l], flaky);
      rest := [l] + next;
      ConcatAssociates(labels, [l], next);
    }
  }

  lemma AllHanded(c: Config, s: State)
    requires Inv(c, s) && AtRest(s)
    ensures Handed(s.log) == s.sent && (s.dbWriteErrors == 0 ==> s.persisted == s.sent)
  {
    hide CheckedIn, SentIn;
    WrittenWithinHanded(s.log);
    ConcatEmpty(Handed(s.log));
    ConcatEmpty(Written(s.log));
  }

  /** Both attempts at a batch: it is persisted by either, and an error only when both fail. */
  lemma TwoAttempts(s: State, first: bool, second: bool)
    requires s.loop == Inserting(false, ToSelect)
    ensures var one := InsertBatch(s, first);
      (if first then one else InsertBatch(one, second))
      == s.(persisted := if first || second then s.persisted + s.batch else s.persisted,
            dbWriteErrors := if first || second then s.dbWriteErrors else s.dbWriteErrors + 1,
            loop := Settled(first || second, ToSelect))
  {}

  /** What a flush does with its batch, and that it does nothing else. */
  lemma RetryPersists(c: Config, s: State, first: bool, second: bool)
    requires s.loop == Inserting(false, ToSelect)
    ensures var one := Step(c, s, Insert(first));
      var two := if first then one else Step(c, one, Insert(second));
      Step(c, two, FinishFlush)
      == s.(batch := [], log := s.log + [Flushed(s.batch, first || second)], loop := Select,
            persisted := if first || second then s.persisted + s.batch else s.persisted,
            dbWriteErrors := if first || second then s.dbWriteErrors else s.dbWriteErrors + 1,
            queueDepth := s.queueDepth - |s.batch|)
  {
    hide InsertBatch;
    TwoAttempts(s, first, second);
  }

  predicate FullBatch(c: Config, n: nat) { n == Max(c.batchSize, 1) }

  /** Neither the ticker nor the end of the drain. */
  predicate Unhurried(l: Label) { !l.Tick? && !l.Drained? }

  ghost predicate FullSoFar(c: Config, s: State) {
    && (forall k | 0 <= k < |s.log| :: FullBatch(c, |s.log[k].events|))
    && (s.loop.Inserting? || s.loop.Settled? ==> FullBatch(c, |s.batch|))
  }

  /** Without a tick and the end of a drain, only full batches leave the writer. */
  lemma {:induction false} BatchesAreFull(c: Config, labels: seq<Label>)
    requires forall k | 0 <= k < |labels| :: Unhurried(labels[k])
    ensures FullSoFar(c, Run(c, labels))
  {
    if labels != [] {
      hide FullSoFar, Step, Inv;
      var n := |labels| - 1;
      BatchesAreFull(c, labels[..n]);
      EveryInterleavingKeepsInv(c, labels[..n]);
      FullNext(c, Run(c, labels[..n]), labels[n]);
    }
  }

  lemma FullNext(c: Config, s: State, l: Label)
    requires Inv(c, s) && FullSoFar(c, s) && Unhurried(l)
    ensures FullSoFar(c, Step(c, s, l))
  {
    hide Inv, FullSoFar, Step;
    assert Bounded(c, s) by { InvBounds(c, s); }
    match l
    case Receive => FullReceive(c, s);
    case Insert(ok) => FullInsert(c, s, ok);
    case FinishFlush => FullFinish(c, s);
    case _ => FullElse(c, s, l);
  }

  lemma InvBounds(c: Config, s: State)
    requires Inv(c, s)
    ensures Bounded(c, s)
  {}

  lemma FullReceive(c: Config, s: State)
    requires Bounded(c, s) && FullSoFar(c, s)
    ensures FullSoFar(c, Step(c, s, Receive))
  {}

  lemma FullInsert(c: Config, s: State, ok: bool)
    requires FullSoFar(c, s)
    ensures FullSoFar(c, Step(c, s, Insert(ok)))
  {
    hide InsertBatch;
    InsertChangesOnly(s, ok);
  }

  lemma FullFinish(c: Config, s: State)
    requires FullSoFar(c, s)
    ensures FullSoFar(c, Step(c, s, FinishFlush))
  {
    if s.loop.Settled? { ConcatSnoc(s.log, Flushed(s.batch, s.loop.written)); }
  }

  /** The other steps leave the log and the batch alone, and begin no flush. */
  lemma FullElse(c: Config, s: State, l: Label)
    requires FullSoFar(c, s) && Unhurried(l) && !l.Receive? && !l.Insert? && !l.FinishFlush?
    ensures FullSoFar(c, Step(c, s, l))
  {
    hide CheckedIn, Waiting, FullBatch;
  }

  // ---------- the loop ends ----------

  /** The steps of the loop itself. */
  predicate Own(l: Label) { l.Receive? || l.Tick? || l.SeeStop? || l.Drained? || l.Insert? || l.FinishFlush? }

  predicate OnlyOwn(labels: seq<Label>) { forall k | 0 <= k < |labels| :: Own(labels[k]) }

  predicate Started(s: State) { s.loop != NotStarted }

  /** Select and drain loop still to be left. */
  function LoopsLeft(s: State): nat {
    match s.loop
    case Select => 2
    case Draining => 1
    case Inserting(_, r) => if r == ToSelect then 2 else if r == ToDrain then 1 else 0
    case Settled(_, r) => if r == ToSelect then 2 else if r == ToDrain then 1 else 0
    case _ => 0
  }

  /** What is left to do with the batch. */
  function FlushLeft(s: State): nat {
    match s.loop
    case Inserting(retry, _) => if retry then 2 else 3
    case Settled(_, _) => 1
    case _ => if s.batch == [] then 0 else 4
  }

  /** A bound on the loop's own steps from here on, the events that can still come included. */
  function Work(s: State): nat { 5 * (|s.queue| + |CheckedIn(s.producers)|) + FlushLeft(s) + LoopsLeft(s) }

  /** The step that the loop can take, whatever the sink says. */
  function NextOwn(s: State, ok: bool): Label {
    match s.loop
    case Select => SeeStop
    case Draining => if s.queue == [] then Drained else Receive
    case Inserting(_, _) => Insert(ok)
    case _ => FinishFlush
  }

  predicate Stopping(s: State) { s.stopped && s.stopClosed && Started(s) }

  /** Once the flag is set, others give the loop no more work. */
  lemma OthersAddNoWork(c: Config, s: State, l: Label)
    requires Stopping(s) && !Own(l)
    ensures Stopping(Step(c, s, l)) && Work(Step(c, s, l)) <= Work(s) && Step(c, s, l).loop == s.loop
  {
    hide CheckedIn, Waiting;
    match l
    case Send(p) => if p in s.producers && s.producers[p].Checked? { ProducerSends(s.producers, p); }
    case Count(p) => if p in s.producers && s.producers[p].Sent? { ProducerReturns(s.producers, p); }
    case _ =>
  }

  /** Each step of the loop that does anything leaves less. */
  lemma OwnStepWorks(c: Config, s: State, l: Label)
    requires Stopping(s) && Bounded(c, s) && Own(l) && Step(c, s, l) != s
    ensures Stopping(Step(c, s, l)) && Work(Step(c, s, l)) < Work(s)
  {
    hide Step, Bounded;
    if l.Receive? {
      ReceiveWorks(c, s);
    } else if l.Tick? || l.SeeStop? || l.Drained? {
      LeavingWorks(c, s, l);
    } else {
      FlushWorks(c, s, l);
    }
  }

  lemma ReceiveWorks(c: Config, s: State)
    requires Stopping(s) && Step(c, s, Receive) != s
    ensures Stopping(Step(c, s, Receive)) && Work(Step(c, s, Receive)) < Work(s)
  {
    hide CheckedIn;
  }

  lemma LeavingWorks(c: Config, s: State, l: Label)
    requires Stopping(s) && Bounded(c, s) && (l.Tick? || l.SeeStop? || l.Drained?) && Step(c, s, l) != s
    ensures Stopping(Step(c, s, l)) && Work(Step(c, s, l)) < Work(s)
  {
    hide CheckedIn;
  }

  lemma FlushWorks(c: Config, s: State, l: Label)
    requires Stopping(s) && (l.Insert? || l.FinishFlush?) && Step(c, s, l) != s
    ensures Stopping(Step(c, s, l)) && Work(Step(c, s, l)) < Work(s)
  {
    hide Step, Stopping, Work;
    match l
    case Insert(ok) => InsertWorks(c, s, ok);
    case FinishFlush => FinishWorks(c, s);
  }

  lemma InsertWorks(c: Config, s: State, ok: bool)
    requires Stopping(s) && Step(c, s, Insert(ok)) != s
    ensures Stopping(Step(c, s, Insert(ok))) && Work(Step(c, s, Insert(ok))) < Work(s)
  {
    hide CheckedIn;
  }

  lemma FinishWorks(c: Config, s: State)
    requires Stopping(s) && Step(c, s, FinishFlush) != s
    ensures Stopping(Step(c, s, FinishFlush)) && Work(Step(c, s, FinishFlush)) < Work(s)
  {
    hide CheckedIn;
  }

  /** The loop can take a step, whatever the sink says. */
  predicate CanMove(c: Config, s: State) {
    forall ok :: Own(NextOwn(s, ok)) && Step(c, s, NextOwn(s, ok)) != s
  }

  /** Until it has ended, the loop always has a step to take. */
  lemma LoopNotStuck(c: Config, s: State)
    requires Stopping(s) && s.loop != Done
    ensures CanMove(c, s)
  {
    if s.loop == Draining && s.queue != [] { assert |s.queue[1..]| < |s.queue|; }
    if s.loop.Settled? { assert |s.log + [Flushed(s.batch, s.loop.written)]| > |s.log|; }
  }

  /** The steps of the loop in `later` that did anything. */
  function OwnSteps(c: Config, labels: seq<Label>, later: seq<Label>): nat {
    if later == [] then 0
    else
      var n := |later| - 1;
      var s := Run(c, labels + later[..n]);
      OwnSteps(c, labels, later[..n]) + if Own(later[n]) && Step(c, s, later[n]) != s then 1 else 0
  }

  lemma {:induction false} WorkIsDone(c: Config, labels: seq<Label>, later: seq<Label>)
    requires Stopping(Run(c, labels))
    ensures Stopping(Run(c, labels + later))
    ensures OwnSteps(c, labels, later) + Work(Run(c, labels + later)) <= Work(Run(c, labels))
  {
    hide Run, Step, Work, Stopping, Bounded, Conserved, Accounted, DepthOk, PersistedOk, StopOk;
    if later == [] {
      ConcatEmpty(labels);
    } else {
      var n := |later| - 1;
      WorkIsDone(c, labels, later[..n]);
      SplitLast(later);
      ConcatAssociates(labels, later[..n], [later[n]]);
      RunSnoc(c, labels + later[..n], later[n]);
      var s := Run(c, labels + later[..n]);
      EveryInterleavingKeepsInv(c, labels + later[..n]);
      if !Own(later[n]) {
        OthersAddNoWork(c, s, later[n]);
      } else if Step(c, s, later[n]) != s {
        OwnStepWorks(c, s, later[n]);
      }
    }
  }

  /**
   Once the stop channel is closed, a started loop ends: whatever else happens and whatever the sink answers, it takes
   no more than a bounded number of steps, and until it has ended it can always take one.
   */
  lemma StopEndsTheLoop(c: Config, labels: seq<Label>, later: seq<Label>)
    requires Run(c, labels).stopClosed && Run(c, labels).loop != NotStarted
    ensures OwnSteps(c, labels, later) <= 5 * (c.capacity + |CheckedIn(Run(c, labels).producers)|) + 6
    ensures Run(c, labels + later).loop == Done || CanMove(c, Run(c, labels + later))
  {
    hide Run, Step, CheckedIn, Handed;
    EveryInterleavingKeepsInv(c, labels);
    WorkIsDone(c, labels, later);
    var t := Run(c, labels + later);
    if t.loop != Done { LoopNotStuck(c, t); }
  }

  /** So a Stop can always return: some steps of the loop alone end it, and the Stop after it. */
  lemma {:induction false} StopCanReturn(c: Config, labels: seq<Label>) returns (rest: seq<Label>)
    requires Run(c, labels).stopClosed && Run(c, labels).loop != NotStarted
    ensures OnlyOwn(rest) && |rest| <= Work(Run(c, labels))
    ensures Run(c, labels + rest).loop == Done && Run(c, labels + rest + [StopReturn]).stopReturned
    decreases Work(Run(c, labels))
  {
    hide Run, Work, OwnSteps, Handed, CheckedIn;
    var s := Run(c, labels);
    EveryInterleavingKeepsInv(c, labels);
    if s.loop == Done {
      rest := [];
      ConcatEmpty(labels);
      RunSnoc(c, labels, StopReturn);
      assert Step(c, s, StopReturn).stopReturned;
    } else {
      var l := NextOwn(s, true);
      hide Step;
      LoopNotStuck(c, s);
      OwnStepWorks(c, s, l);
      RunSnoc(c, labels, l);
      var next := StopCanReturn(c, labels + [l]);
      rest := [l] + next;
      ConcatAssociates(labels, [l], next);
    }
  }

  /** Once the loop has ended, whatever follows hands nothing on and takes nothing from the queue. */
  lemma {:induction false} DoneIsForGood(c: Config, labels: seq<Label>, later: seq<Label>)
    requires Run(c, labels).loop == Done
    ensures var s := Run(c, labels);
      var t := Run(c, labels + later);
      t.loop == Done && t.log == s.log && t.persisted == s.persisted && s.queue <= t.queue
  {
    hide Step, Run;
    if later == [] {
      ConcatEmpty(labels);
    } else {
      var n := |later| - 1;
      DoneIsForGood(c, labels, later[..n]);
      SplitLast(later);
      ConcatAssociates(labels, later[..n], [later[n]]);
      RunSnoc(c, labels + later[..n], later[n]);
      DoneStays(c, Run(c, labels + later[..n]), later[n]);
    }
  }

  lemma DoneStays(c: Config, s: State, l: Label)
    requires s.loop == Done
    ensures var t := Step(c, s, l); t.loop == Done && t.log == s.log && t.persisted == s.persisted && s.queue <= t.queue
  {
    hide CheckedIn, Waiting, ReceiveEvent, EndDrain, InsertBatch, EndFlush;
    DoneIdles(c, s);
  }

  lemma DoneIdles(c: Config, s: State)
    requires s.loop == Done
    ensures ReceiveEvent(c, s) == s && EndDrain(s) == s && EndFlush(s) == s && forall ok :: InsertBatch(s, ok) == s
  {}

  /** With no producer between its check and its send when the flag is set, nothing is left behind. */
  lemma QuietStopLeavesNothing(c: Config, labels: seq<Label>)
    requires Run(c, labels).stopReturned && !Run(c, labels).neverStarted && Run(c, labels).checkedAtStop == 0
    ensures var s := Run(c, labels); s.queue == [] && Handed(s.log) == s.sent && CheckedIn(s.producers) == {}
  {
    StopDrains(c, labels);
    ConcatEmpty(Handed(Run(c, labels).log));
  }

  lemma {:induction false} WrittenWithinHanded(log: seq<Flushed>)
    ensures multiset(Written(log)) <= multiset(Handed(log))
    ensures Failures(log) == 0 ==> Written(log) == Handed(log)
  {
    if log != [] { WrittenWithinHanded(log[..|log| - 1]); }
  }

  /**
   In spite of the retry nothing is persisted twice: each sent event is persisted at
   most once, and without a write error all that was flushed is persisted, in order.
   */
  lemma NothingPersistedTwice(c: Config, labels: seq<Label>)
    ensures var s := Run(c, labels);
      && multiset(s.persisted) <= multiset(s.sent)
      && (s.dbWriteErrors == 0 ==> Handed(s.log) <= s.persisted <= s.sent)
  {
    EveryInterleavingKeepsInv(c, labels);
    var s := Run(c, labels);
    WrittenWithinHanded(s.log);
    var now := if s.loop.Settled? && s.loop.written then s.batch else [];
    assert multiset(s.persisted) == multiset(Written(s.log)) + multiset(now);
    assert multiset(s.sent) == multiset(Handed(s.log)) + multiset(s.batch) + multiset(s.queue);
    if s.dbWriteErrors == 0 { ConcatEmpty(Handed(s.log)); }
  }

  // ---------- a negative depth, and an event accepted too late ----------

  lemma RunSnoc(c: Config, labels: seq<Label>, l: Label)
    ensures Run(c, labels + [l]) == Step(c, Run(c, labels), l)
  {
    ConcatSnoc(labels, l);
  }

  lemma RunNothing(c: Config)
    ensures Run(c, []) == START
  {}

  /** A producer that has passed the flag check, with the loop running. */
  lemma OneChecked(c: Config) returns (labels: seq<Label>, s: State)
    ensures s == Run(c, labels) == START.(loop := Select, calls := 1, producers := map[0 := Checked(7)])
  {
    hide Run;
    RunNothing(c);
    RunSnoc(c, [], Start);
    RunSnoc(c, [] + [Start], Check(0, 7));
    labels := [] + [Start] + [Check(0, 7)];
    s := Run(c, labels);
  }

  /** Its event has been received by the loop, before it was counted. */
  lemma OneReceived() returns (labels: seq<Label>, s: State)
    ensures s == Run(Config(100, 1), labels)
    ensures s.batch == [7] && s.queue == [] && s.queueDepth == 0 && s.loop == Inserting(false, ToSelect)
  {
    hide Run;
    var c := Config(100, 1);
    labels, s := OneChecked(c);
    RunSnoc(c, labels, Send(0));
    labels, s := labels + [Send(0)], Step(c, s, Send(0));
    assert s.queue == [7];
    RunSnoc(c, labels, Receive);
    labels, s := labels + [Receive], Step(c, s, Receive);
  }

  /** The depth counter can be below the true depth, even negative. */
  lemma DepthCanBeNegative()
    ensures exists labels :: Run(Config(100, 1), labels).queueDepth == -1
  {
    hide Run;
    var c := Config(100, 1);
    var labels, s := OneReceived();
    RunSnoc(c, labels, Insert(true));
    RunSnoc(c, labels + [Insert(true)], FinishFlush);
    assert Step(c, s, Insert(true)).loop == Settled(true, ToSelect);
    assert Run(c, labels + [Insert(true)] + [FinishFlush]).queueDepth == -1;
  }

  /** The loop has drained an empty queue and ended while a producer is about to send. */
  lemma OneLate() returns (labels: seq<Label>, s: State)
    ensures s == Run(Config(100, 1), labels)
    ensures s.stopClosed && !s.stopReturned && s.loop == Done && s.queue == [] && s.producers == map[0 := Checked(7)]
    ensures s.log == [] && s.persisted == [] && s.accepted == 0 == s.dropped && s.calls == 1
  {
    hide Run;
    var c := Config(100, 1);
    labels, s := OneChecked(c);
    RunSnoc(c, labels, StopFlag);
    RunSnoc(c, labels + [StopFlag], StopClose);
    labels, s := labels + [StopFlag] + [StopClose], Step(c, Step(c, s, StopFlag), StopClose);
    assert s.loop == Select && s.stopClosed;
    RunSnoc(c, labels, SeeStop);
    RunSnoc(c, labels + [SeeStop], Drained);
    labels, s := labels + [SeeStop] + [Drained], Step(c, Step(c, s, SeeStop), Drained);
  }

  /** An event sent after the drain is accepted, and stays in the queue whatever happens from then on. */
  lemma LateSendStays() returns (labels: seq<Label>)
    ensures var s := Run(Config(100, 1), labels);
      s.stopReturned && s.queue == [7] && s.accepted == 1 == s.calls && s.dropped == 0 && s.producers == map[]
    ensures forall later ::
              var t := Run(Config(100, 1), labels + later); t.log == [] && t.persisted == [] && [7] <= t.queue
  {
    hide Run;
    var c := Config(100, 1);
    var s;
    labels, s := OneLate();
    RunSnoc(c, labels, StopReturn);
    RunSnoc(c, labels + [StopReturn], Send(0));
    RunSnoc(c, labels + [StopReturn] + [Send(0)], Count(0));
    var s' := Step(c, s, StopReturn);
    assert s'.stopReturned && s'.queue == [];
    labels := labels + [StopReturn] + [Send(0)] + [Count(0)];
    forall later ensures var t := Run(c, labels + later); t.log == [] && t.persisted == [] && [7] <= t.queue {
      DoneIsForGood(c, labels, later);
    }
  }
}
