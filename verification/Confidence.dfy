/** What the side channel does to the confidence a cost report gives a request. */
module Confidence {
  import S = SideMerge
  import B = CostBuckets

  predicate Used(t: S.Tokens) { t.input > 0 || t.output > 0 || t.reasoning > 0 || t.cached > 0 || t.cacheCreation > 0 }

  /** Some live event ended in a conflict on this row. */
  predicate ConflictOn(s: S.Store, r: int) {
    exists id | id in s.events :: s.events[id].matchedRow == r && s.events[id].status == S.Conflict
  }

  /** The class of a row, whose capture mode and outcome were recorded with the request. */
  function ClassOf(s: S.Store, r: int, mode: string, outcome: string): B.Confidence
    requires r in s.rows
  {
    B.Classify(B.Capture(ConflictOn(s, r), s.rows[r].usageSource, mode, outcome), Used(s.rows[r].tokens))
  }

  /** The event gives the row its usage. */
  predicate Fills(r: S.Row, e: S.Event) { !S.HasTokens(r.tokens) && S.HasTokens(e.tokens) }

  lemma ConflictAfter(s: S.Store, id: int, status: S.Status, row: int, r: int)
    requires id in s.events && s.events[id].status != S.Conflict
    ensures ConflictOn(S.SetStatus(s, id, status, row), r) <==> ConflictOn(s, r) || (status == S.Conflict && row == r)
  {
    var t := S.SetStatus(s, id, status, row);
    if status == S.Conflict && row == r { assert t.events[id].matchedRow == r; }
    if ConflictOn(s, r) {
      var j :| j in s.events && s.events[j].matchedRow == r && s.events[j].status == S.Conflict;
      assert j != id && t.events[j] == s.events[j];
    }
  }

  /**
   Matching a new event changes the class of one row at most: a conflict makes it a conflict, usage from the event
   makes it side channel whatever the request recorded, unless it already has a conflict, and all else changes none.
   */
  lemma MatchDecidesClass(s: S.Store, id: int, timeout: int, r: int, mode: string, outcome: string)
    requires id in s.events && s.events[id].status == S.StoredOnly && r in s.rows
    ensures var (status, t) := S.Apply(s, id, timeout);
      && r in t.rows && id in t.events
      && ClassOf(t, r, mode, outcome)
      == if status == S.Conflict && t.events[id].matchedRow == r then B.Conflict
         else if status == S.Matched && t.events[id].matchedRow == r && Fills(s.rows[r], s.events[id]) then
           (if ConflictOn(s, r) then B.Conflict else B.SideChannel)
         else ClassOf(s, r, mode, outcome)
  {
    hide ConflictOn, S.FirstCandidate, S.OtherMatched, S.AnyRow;
    var (status, t) := S.Apply(s, id, timeout);
    if t != s {
      var row := t.events[id].matchedRow;
      ConflictAfter(s, id, status, row, r);
      SameConflicts(s, s.(rows := t.rows), r);
      SameConflicts(S.SetStatus(s, id, status, row), t, r);
    }
  }

  /**
   The same from what the tables hold before: the row first in the event's window, unless another event has it or is
   matched already for the request, becomes a conflict when the usage clashes, side channel when it had none, and every
   other row keeps its class.
   */
  lemma ClassFromTables(s: S.Store, id: int, timeout: int, r: int, mode: string, outcome: string)
    requires S.IdsOk(s) && id in s.events && s.events[id].status == S.StoredOnly && s.events[id].requestId != "" && r in s.rows
    ensures var e := s.events[id]; var t := S.Apply(s, id, timeout).1;
      var open := S.FirstInWindow(s, r, e, timeout) && !S.Taken(s.rows[r], id) && !S.OtherMatched(s, id, e.requestId);
      && r in t.rows
      && ClassOf(t, r, mode, outcome)
      == if open && S.Clash(s.rows[r], e) then B.Conflict
         else if open && Fills(s.rows[r], e) && !ConflictOn(s, r) then B.SideChannel
         else ClassOf(s, r, mode, outcome)
  {
    hide ConflictOn, S.FirstCandidate, S.AnyRow, S.FirstInWindow, S.HasTokens, ClassOf;
    var e := s.events[id];
    MatchDecidesClass(s, id, timeout, r, mode, outcome);
    S.FirstIsFirst(s, e, timeout);
    S.OutcomeNames(s, id, timeout);
    if ConflictOn(s, r) { ConflictClass(s, r, mode, outcome); }
  }

  lemma ConflictClass(s: S.Store, r: int, mode: string, outcome: string)
    requires r in s.rows && ConflictOn(s, r)
    ensures ClassOf(s, r, mode, outcome) == B.Conflict
  {}

  /** In every run a request counted as a conflict has usage that clashes with that of an event of its own, in its window. */
  lemma ConflictsAreReal(actions: seq<S.Action>, timeout: int, r: int, mode: string, outcome: string)
    requires S.AllFresh(actions) && r in S.Run(S.EMPTY, actions, timeout).rows
    ensures var s := S.Run(S.EMPTY, actions, timeout);
      ClassOf(s, r, mode, outcome) == B.Conflict ==>
        exists id :: id in s.events && s.events[id].matchedRow == r && s.events[id].status == S.Conflict
                     && S.FirstInWindow(s, r, s.events[id], timeout) && S.Clash(s.rows[r], s.events[id])
  {
    hide S.Run, S.FirstInWindow, S.HasTokens;
    S.EveryRunNames(actions, timeout);
    var s := S.Run(S.EMPTY, actions, timeout);
    if id :| id in s.events && s.events[id].matchedRow == r && s.events[id].status == S.Conflict {
      assert S.Names(s, id, timeout);
    }
  }

  /** Conflicts are a matter of the events alone. */
  lemma SameConflicts(s: S.Store, t: S.Store, r: int)
    requires s.events == t.events
    ensures ConflictOn(s, r) <==> ConflictOn(t, r)
  {}

  const SIDE := "cliproxy_side_channel"

  lemma StepKeepsSource(s: S.Store, a: S.Action, timeout: int, r: int)
    requires S.Inv(s, timeout) && r in s.rows && s.rows[r].usageSource == SIDE
    ensures r in S.Step(s, a, timeout).rows && S.Step(s, a, timeout).rows[r].usageSource == SIDE
  {
    hide S.FirstCandidate, S.OtherMatched, S.AnyRow;
  }

  /** Over any further run a request filled from the side channel stays side channel, conflicts apart. */
  lemma {:induction false} SideChannelStays(s: S.Store, actions: seq<S.Action>, timeout: int, r: int, mode: string, outcome: string)
    requires S.Inv(s, timeout) && S.AllFresh(actions) && r in s.rows && s.rows[r].usageSource == SIDE
    ensures var t := S.Run(s, actions, timeout);
      && r in t.rows && t.rows[r].usageSource == SIDE
      && ClassOf(t, r, mode, outcome) == if ConflictOn(t, r) then B.Conflict else B.SideChannel
  {
    hide ConflictOn, S.Step, S.Inv;
    if actions != [] {
      var n := |actions| - 1;
      SideChannelStays(s, actions[..n], timeout, r, mode, outcome);
      S.RowsStay(s, actions[..n], timeout, r);
      StepKeepsSource(S.Run(s, actions[..n], timeout), actions[n], timeout, r);
    }
  }
}
