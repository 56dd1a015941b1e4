/**
 The side channel: usage events that arrive apart from the requests they belong to,
 and are matched to request rows.  Each transaction is one step on two tables whose
 ids grow and are never reused.
 */
module SideMerge {
  import opened Bytes

  datatype Tokens = Tokens(input: int, output: int, reasoning: int, cached: int, cacheCreation: int, total: int)

  datatype Row = Row(requestId: string, createdAt: int, tokens: Tokens,
                     modelReturned: string, modelReturnedSource: string, usageSource: string, sideEventId: int)

  datatype Status = StoredOnly | InvalidPayload | Matched | Duplicate | Conflict | Expired | Unmatched

  datatype Event = Event(requestId: string, receivedAt: int, tokens: Tokens, model: string,
                         status: Status, matchedRow: int)

  datatype Store = Store(rows: map<int, Row>, events: map<int, Event>, nextRow: int, nextEvent: int)

  const EMPTY: Store := Store(map[], map[], 1, 1)

  predicate HasTokens(t: Tokens) {
    t.input > 0 || t.output > 0 || t.reasoning > 0 || t.cached > 0 || t.cacheCreation > 0 || t.total > 0
  }

  predicate Blank(s: string) { forall k | 0 <= k < |s| :: s[k] == ' ' }

  /** The configured timeout in seconds; ten minutes when it is not positive. */
  function WindowSeconds(configured: int): int { if configured <= 0 then 600 else configured }

  predicate InWindow(r: Row, e: Event, timeout: int) {
    e.receivedAt - WindowSeconds(timeout) <= r.createdAt <= e.receivedAt + WindowSeconds(timeout)
  }

  predicate Candidate(s: Store, r: int, e: Event, timeout: int) {
    r in s.rows && s.rows[r].requestId == e.requestId && InWindow(s.rows[r], e, timeout)
  }

  /** The lowest-numbered row, from `i` on, that the event can match. */
  function FirstCandidate(s: Store, e: Event, timeout: int, i: int): (r: Option<int>)
    ensures r.Some? ==> i <= r.value < s.nextRow && Candidate(s, r.value, e, timeout)
    ensures r.Some? ==> forall j | i <= j < r.value :: !Candidate(s, j, e, timeout)
    ensures r.None? ==> forall j | i <= j < s.nextRow :: !Candidate(s, j, e, timeout)
    decreases s.nextRow - i
  {
    if i >= s.nextRow then None
    else if Candidate(s, i, e, timeout) then Some(i)
    else FirstCandidate(s, e, timeout, i + 1)
  }

  predicate OtherMatched(s: Store, id: int, requestId: string) {
    exists j | j in s.events :: j != id && s.events[j].requestId == requestId && s.events[j].status == Matched
  }

  predicate AnyRow(s: Store, requestId: string) { exists r | r in s.rows :: s.rows[r].requestId == requestId }

  function SetStatus(s: Store, id: int, status: Status, row: int): Store
    requires id in s.events
  {
    s.(events := s.events[id := s.events[id].(status := status, matchedRow := row)])
  }

  /** The row as the event fills it in. */
  function Filled(r: Row, e: Event, id: int): Row {
    if !HasTokens(r.tokens) && HasTokens(e.tokens) then
      var named := Blank(r.modelReturned) && e.model != "";
      r.(tokens := e.tokens,
         modelReturned := if named then e.model else r.modelReturned,
         modelReturnedSource := if named then "side_channel" else r.modelReturnedSource,
         usageSource := "cliproxy_side_channel",
         sideEventId := id)
    else r.(sideEventId := id)
  }

  function Apply(s: Store, id: int, timeout: int): (Status, Store) {
    if id <= 0 || id !in s.events then (Unmatched, s)
    else
      var e := s.events[id];
      if e.requestId == "" then (Unmatched, SetStatus(s, id, Unmatched, 0))
      else if OtherMatched(s, id, e.requestId) then (Duplicate, SetStatus(s, id, Duplicate, 0))
      else match FirstCandidate(s, e, timeout, 1)
      case None =>
        var status := if AnyRow(s, e.requestId) then Expired else Unmatched;
        (status, SetStatus(s, id, status, 0))
      case Some(r) =>
        var row := s.rows[r];
        if row.sideEventId > 0 && row.sideEventId != id then (Duplicate, SetStatus(s, id, Duplicate, r))
        else if HasTokens(row.tokens) && HasTokens(e.tokens) && row.tokens != e.tokens then
          (Conflict, SetStatus(s, id, Conflict, r))
        else (Matched, SetStatus(s.(rows := s.rows[r := Filled(row, e, id)]), id, Matched, r))
  }

  // ---------- the tables ----------

  class SideStore {
    var rows: map<int, Row>
    var events: map<int, Event>
    var nextRow: int
    var nextEvent: int

    function View(): Store reads this { Store(rows, events, nextRow, nextEvent) }

    constructor ()
      ensures View() == EMPTY
    {
      rows, events, nextRow, nextEvent := map[], map[], 1, 1;
    }

    /** One record of a batch; the batch inserts its records one after the other. */
    method InsertRow(row: Row) returns (id: int)
      modifies this
      ensures id == old(nextRow) && View() == Step(old(View()), AddRow(row), 0)
    {
      id := nextRow;
      rows := rows[id := row];
      nextRow := nextRow + 1;
    }

    method InsertSideUsageEvent(e: Event) returns (id: int)
      modifies this
      ensures id == old(nextEvent) && View() == Step(old(View()), AddEvent(e), 0)
    {
      id := nextEvent;
      events := events[id := e];
      nextEvent := nextEvent + 1;
    }

    method DeleteStaleSideUsageEvents(cutoff: int)
      modifies this
      ensures View() == Step(old(View()), DeleteStale(cutoff), 0)
    {
      events := map id | id in events && events[id].receivedAt >= cutoff :: events[id];
    }

    method UpdateStatus(id: int, status: Status, row: int)
      requires id in events
      modifies this`events
      ensures View() == SetStatus(old(View()), id, status, row)
    {
      events := events[id := events[id].(status := status, matchedRow := row)];
    }

    method ApplySideUsageEvent(id: int, timeout: int) returns (status: Status)
      modifies this
      ensures (status, View()) == Apply(old(View()), id, timeout)
    {
      if id <= 0 || id !in events { return Unmatched; }
      var e := events[id];
      if e.requestId == "" {
        UpdateStatus(id, Unmatched, 0);
        return Unmatched;
      }
      if OtherMatched(View(), id, e.requestId) {
        UpdateStatus(id, Duplicate, 0);
        return Duplicate;
      }
      var found := FirstCandidate(View(), e, timeout, 1);
      if found.None? {
        if AnyRow(View(), e.requestId) {
          UpdateStatus(id, Expired, 0);
          return Expired;
        }
        UpdateStatus(id, Unmatched, 0);
        return Unmatched;
      }
      var req := rows[found.value];
      if req.sideEventId > 0 && req.sideEventId != id {
        UpdateStatus(id, Duplicate, found.value);
        return Duplicate;
      }
      var requestHasTokens := HasTokens(req.tokens);
      var sideHasTokens := HasTokens(e.tokens);
      if requestHasTokens && sideHasTokens && req.tokens != e.tokens {
        UpdateStatus(id, Conflict, found.value);
        return Conflict;
      }
      if !requestHasTokens && sideHasTokens {
        var named := Blank(req.modelReturned) && e.model != "";
        req := req.(tokens := e.tokens, usageSource := "cliproxy_side_channel", sideEventId := id);
        if named {
          req := req.(modelReturned := e.model, modelReturnedSource := "side_channel");
        }
        rows := rows[found.value := req];
      } else {
        rows := rows[found.value := req.(sideEventId := id)];
      }
      UpdateStatus(id, Matched, found.value);
      return Matched;
    }

    /** A payload from the queue: always stored, applied only when merging is allowed. */
    method ProcessPayload(e: Event, allowMerge: bool, timeout: int)
      modifies this
      ensures var stored := Step(old(View()), AddEvent(e), timeout);
        View() == if !allowMerge || e.status == InvalidPayload || e.requestId == "" then stored
                  else Step(stored, Match(old(nextEvent)), timeout)
    {
      var id := InsertSideUsageEvent(e);
      if !allowMerge || e.status == InvalidPayload || e.requestId == "" { return; }
      var _ := ApplySideUsageEvent(id, timeout);
    }
  }

  // ---------- runs ----------

  datatype Action = AddRow(row: Row) | AddEvent(event: Event) | Match(id: int) | DeleteStale(cutoff: int)

  /** New rows point at no event; new events are as the poller parses them. */
  predicate Fresh(a: Action) {
    match a
    case AddRow(row) => row.sideEventId == 0
    case AddEvent(e) => (e.status == StoredOnly || e.status == InvalidPayload) && e.matchedRow == 0
    case _ => true
  }

  predicate AllFresh(actions: seq<Action>) { forall k | 0 <= k < |actions| :: Fresh(actions[k]) }

  function Step(s: Store, a: Action, timeout: int): Store {
    match a
    case AddRow(row) => s.(rows := s.rows[s.nextRow := row], nextRow := s.nextRow + 1)
    case AddEvent(e) => s.(events := s.events[s.nextEvent := e], nextEvent := s.nextEvent + 1)
    case Match(id) => Apply(s, id, timeout).1
    case DeleteStale(cutoff) => s.(events := map id | id in s.events && s.events[id].receivedAt >= cutoff :: s.events[id])
  }

  function Run(s: Store, actions: seq<Action>, timeout: int): Store {
    if actions == [] then s else Step(Run(s, actions[..|actions| - 1], timeout), actions[|actions| - 1], timeout)
  }

  // ---------- what every run keeps ----------

  /** A matched event and its row point at each other, agree, and were the first choice. */
  predicate Paired(s: Store, id: int, timeout: int)
    requires id in s.events
  {
    var e := s.events[id];
    && e.requestId != ""
    && FirstCandidate(s, e, timeout, 1) == Some(e.matchedRow)
    && s.rows[e.matchedRow].sideEventId == id
    && (HasTokens(e.tokens) ==> s.rows[e.matchedRow].tokens == e.tokens)
  }

  /** The event a row points at, while it lives, is the one matched to that row. */
  predicate BackPointerOk(s: Store, r: int)
    requires r in s.rows
  {
    var id := s.rows[r].sideEventId;
    && 0 <= id < s.nextEvent
    && (id in s.events ==> s.events[id].status == Matched && s.events[id].matchedRow == r)
  }

  ghost predicate IdsOk(s: Store) {
    && (forall r | r in s.rows :: 0 < r < s.nextRow)
    && (forall id | id in s.events :: 0 < id < s.nextEvent)
    && 0 < s.nextRow && 0 < s.nextEvent
  }

  ghost predicate OneMatchPerRequest(s: Store) {
    forall i, j | i in s.events && j in s.events && s.events[i].status == Matched && s.events[j].status == Matched
                  && s.events[i].requestId == s.events[j].requestId :: i == j
  }

  ghost predicate Inv(s: Store, timeout: int) {
    && IdsOk(s)
    && OneMatchPerRequest(s)
    && (forall id | id in s.events && s.events[id].status == Matched :: Paired(s, id, timeout))
    && (forall r | r in s.rows :: BackPointerOk(s, r))
  }

  /** Rows that keep their request and time, and new rows behind them, keep the first choice. */
  lemma {:induction false} FirstKept(s: Store, s': Store, e: Event, timeout: int, i: int)
    requires s.nextRow <= s'.nextRow
    requires forall r | i <= r < s.nextRow :: Candidate(s, r, e, timeout) <==> Candidate(s', r, e, timeout)
    ensures FirstCandidate(s, e, timeout, i).Some? ==> FirstCandidate(s', e, timeout, i) == FirstCandidate(s, e, timeout, i)
    ensures s.nextRow == s'.nextRow ==> FirstCandidate(s', e, timeout, i) == FirstCandidate(s, e, timeout, i)
    decreases s.nextRow - i
  {
    if i < s.nextRow && !Candidate(s, i, e, timeout) { FirstKept(s, s', e, timeout, i + 1); }
  }

  /** A pair is kept by any change that keeps its row, the event, and the candidates. */
  lemma PairKept(s: Store, s': Store, id: int, timeout: int)
    requires id in s.events && id in s'.events && s'.events[id] == s.events[id]
    requires Paired(s, id, timeout) && s.nextRow <= s'.nextRow
    requires forall r | 1 <= r < s.nextRow :: r in s.rows <==> r in s'.rows
    requires forall r | 1 <= r < s.nextRow && r in s.rows ::
               s'.rows[r].requestId == s.rows[r].requestId && s'.rows[r].createdAt == s.rows[r].createdAt
    requires s'.rows[s.events[id].matchedRow] == s.rows[s.events[id].matchedRow]
    ensures Paired(s', id, timeout)
  {
    FirstKept(s, s', s.events[id], timeout, 1);
  }

  lemma AddRowKeeps(s: Store, row: Row, timeout: int)
    requires Inv(s, timeout) && row.sideEventId == 0
    ensures Inv(Step(s, AddRow(row), timeout), timeout)
  {
    var s' := Step(s, AddRow(row), timeout);
    hide Paired;
    forall id | id in s'.events && s'.events[id].status == Matched ensures Paired(s', id, timeout) {
      PairRow(s, id, timeout);
      PairKept(s, s', id, timeout);
    }
    forall r | r in s'.rows ensures BackPointerOk(s', r) {
      if r in s.rows { assert BackPointerOk(s, r); }
    }
  }

  lemma PairRow(s: Store, id: int, timeout: int)
    requires id in s.events && Paired(s, id, timeout)
    ensures var r := s.events[id].matchedRow; r in s.rows && 1 <= r < s.nextRow
    ensures s.rows[s.events[id].matchedRow].sideEventId == id
  {}

  lemma AddEventKeeps(s: Store, e: Event, timeout: int)
    requires Inv(s, timeout) && Fresh(AddEvent(e))
    ensures Inv(Step(s, AddEvent(e), timeout), timeout)
  {
    var s' := Step(s, AddEvent(e), timeout);
    hide Paired;
    forall id | id in s'.events && s'.events[id].status == Matched ensures Paired(s', id, timeout) {
      assert id in s.events;
      PairRow(s, id, timeout);
      PairKept(s, s', id, timeout);
    }
    forall r | r in s'.rows ensures BackPointerOk(s', r) { assert BackPointerOk(s, r); }
  }

  lemma DeleteKeeps(s: Store, cutoff: int, timeout: int)
    requires Inv(s, timeout)
    ensures Inv(Step(s, DeleteStale(cutoff), timeout), timeout)
  {
    var s' := Step(s, DeleteStale(cutoff), timeout);
    hide Paired;
    forall id | id in s'.events && s'.events[id].status == Matched ensures Paired(s', id, timeout) {
      PairRow(s, id, timeout);
      PairKept(s, s', id, timeout);
    }
    forall r | r in s'.rows ensures BackPointerOk(s', r) { assert BackPointerOk(s, r); }
  }

  /** Re-applying a matched event changes nothing. */
  lemma ReapplyIsIdentity(s: Store, id: int, timeout: int)
    requires Inv(s, timeout) && id in s.events && s.events[id].status == Matched
    ensures Apply(s, id, timeout) == (Matched, s)
  {
    assert Paired(s, id, timeout);
    var e := s.events[id];
    assert s.events[id := e] == s.events;
    assert s.rows[e.matchedRow := s.rows[e.matchedRow]] == s.rows;
  }

  /** Setting a status other than matched on an event that was not matched. */
  lemma UnmatchedStatusKeeps(s: Store, id: int, status: Status, row: int, timeout: int)
    requires Inv(s, timeout) && id in s.events && s.events[id].status != Matched && status != Matched
    ensures Inv(SetStatus(s, id, status, row), timeout)
  {
    var s' := SetStatus(s, id, status, row);
    hide Paired;
    forall i | i in s'.events && s'.events[i].status == Matched ensures Paired(s', i, timeout) {
      assert i in s.events && i != id;
      PairRow(s, i, timeout);
      PairKept(s, s', i, timeout);
    }
    forall r | r in s'.rows ensures BackPointerOk(s', r) { assert BackPointerOk(s, r); }
  }

  lemma NewMatchKeeps(s: Store, id: int, r: int, timeout: int)
    requires Inv(s, timeout) && id in s.events && s.events[id].status != Matched && s.events[id].requestId != ""
    requires !OtherMatched(s, id, s.events[id].requestId)
    requires FirstCandidate(s, s.events[id], timeout, 1) == Some(r)
    requires s.rows[r].sideEventId == 0 || s.rows[r].sideEventId == id
    requires !(HasTokens(s.rows[r].tokens) && HasTokens(s.events[id].tokens) && s.rows[r].tokens != s.events[id].tokens)
    ensures Inv(SetStatus(s.(rows := s.rows[r := Filled(s.rows[r], s.events[id], id)]), id, Matched, r), timeout)
  {
    var e := s.events[id];
    var s' := SetStatus(s.(rows := s.rows[r := Filled(s.rows[r], e, id)]), id, Matched, r);
    assert BackPointerOk(s, r);
    FirstKept(s, s', e, timeout, 1);
    SameCandidates(s', e, s'.events[id], timeout, 1);
    assert Paired(s', id, timeout);
    hide Paired;
    forall i | i in s'.events && s'.events[i].status == Matched ensures Paired(s', i, timeout) {
      if i != id {
        PairRow(s, i, timeout);
        assert s.events[i].matchedRow != r;
        PairKept(s, s', i, timeout);
      }
    }
    forall q | q in s'.rows ensures BackPointerOk(s', q) { assert BackPointerOk(s, q); }
  }

  lemma {:induction false} SameCandidates(s: Store, e: Event, e': Event, timeout: int, i: int)
    requires e.requestId == e'.requestId && e.receivedAt == e'.receivedAt
    ensures FirstCandidate(s, e, timeout, i) == FirstCandidate(s, e', timeout, i)
    decreases s.nextRow - i
  {
    if i < s.nextRow && !Candidate(s, i, e, timeout) { SameCandidates(s, e, e', timeout, i + 1); }
  }

  lemma ApplyKeeps(s: Store, id: int, timeout: int)
    requires Inv(s, timeout)
    ensures Inv(Apply(s, id, timeout).1, timeout)
  {
    if id > 0 && id in s.events {
      var e := s.events[id];
      if e.status == Matched {
        ReapplyIsIdentity(s, id, timeout);
      } else {
        var (status, s') := Apply(s, id, timeout);
        if status == Matched {
          var r := FirstCandidate(s, e, timeout, 1).value;
          assert BackPointerOk(s, r);
          NewMatchKeeps(s, id, r, timeout);
        } else {
          UnmatchedStatusKeeps(s, id, status, s'.events[id].matchedRow, timeout);
        }
      }
    }
  }

  /** Every run from empty tables, whatever its order of inserts, matches and deletes. */
  lemma {:induction false} EveryRunKeepsInv(actions: seq<Action>, timeout: int)
    requires AllFresh(actions)
    ensures Inv(Run(EMPTY, actions, timeout), timeout)
  {
    if actions != [] {
      var n := |actions| - 1;
      EveryRunKeepsInv(actions[..n], timeout);
      var s := Run(EMPTY, actions[..n], timeout);
      match actions[n]
      case AddRow(row) => AddRowKeeps(s, row, timeout);
      case AddEvent(e) => AddEventKeeps(s, e, timeout);
      case Match(id) => ApplyKeeps(s, id, timeout);
      case DeleteStale(cutoff) => DeleteKeeps(s, cutoff, timeout);
    }
  }

  /** What the invariant says to a reader of the tables. */
  lemma MatchedPairsAgree(actions: seq<Action>, timeout: int, id: int)
    requires AllFresh(actions)
    requires var s := Run(EMPTY, actions, timeout); id in s.events && s.events[id].status == Matched
    ensures var s := Run(EMPTY, actions, timeout); var e := s.events[id]; var r := e.matchedRow;
      && r in s.rows && s.rows[r].sideEventId == id
      && s.rows[r].requestId == e.requestId && InWindow(s.rows[r], e, timeout)
      && (HasTokens(e.tokens) ==> s.rows[r].tokens == e.tokens)
      && forall j | j in s.events && j != id && s.events[j].requestId == e.requestId :: s.events[j].status != Matched
  {
    EveryRunKeepsInv(actions, timeout);
    assert Paired(Run(EMPTY, actions, timeout), id, timeout);
  }

  // ---------- the outcome of a match, in terms of the tables ----------

  /** The lowest-numbered row with the event's request id inside its window. */
  ghost predicate FirstInWindow(s: Store, r: int, e: Event, timeout: int) {
    Candidate(s, r, e, timeout) && forall q | Candidate(s, q, e, timeout) :: r <= q
  }

  ghost predicate Clash(r: Row, e: Event) { HasTokens(r.tokens) && HasTokens(e.tokens) && r.tokens != e.tokens }

  ghost predicate Taken(r: Row, id: int) { r.sideEventId > 0 && r.sideEventId != id }

  /** Which status an event gets, decided by what exists in the tables. */
  lemma StatusExactly(s: Store, id: int, timeout: int)
    requires IdsOk(s) && id in s.events && s.events[id].requestId != ""
    ensures var e := s.events[id]; var (status, s') := Apply(s, id, timeout);
      var other := exists j | j in s.events :: j != id && s.events[j].requestId == e.requestId && s.events[j].status == Matched;
      var known := exists r | r in s.rows :: s.rows[r].requestId == e.requestId;
      var near := exists r :: Candidate(s, r, e, timeout);
      && (status == Unmatched <==> !other && !known)
      && (status == Expired <==> !other && known && !near)
      && (status == Duplicate <==> other || exists r :: FirstInWindow(s, r, e, timeout) && Taken(s.rows[r], id))
      && (status == Conflict <==> !other && exists r :: FirstInWindow(s, r, e, timeout)
                                                     && !Taken(s.rows[r], id) && Clash(s.rows[r], e))
      && (status == Matched <==> !other && exists r :: FirstInWindow(s, r, e, timeout)
                                                    && !Taken(s.rows[r], id) && !Clash(s.rows[r], e))
  {
    var e := s.events[id];
    var found := FirstCandidate(s, e, timeout, 1);
    forall r | Candidate(s, r, e, timeout) ensures found.Some? && found.value <= r {
      assert 1 <= r < s.nextRow;
    }
    if found.Some? {
      assert FirstInWindow(s, found.value, e, timeout);
      assert forall r | FirstInWindow(s, r, e, timeout) :: r == found.value;
    }
  }

  /** The row a status names: a clash its row, a duplicate the row another event has, and the rest none. */
  ghost predicate Names(s: Store, id: int, timeout: int)
    requires id in s.events
  {
    var e := s.events[id];
    match e.status
    case Matched => FirstInWindow(s, e.matchedRow, e, timeout) && s.rows[e.matchedRow].sideEventId == id
    case Conflict => FirstInWindow(s, e.matchedRow, e, timeout) && Clash(s.rows[e.matchedRow], e)
    case Duplicate => e.matchedRow == 0 || (FirstInWindow(s, e.matchedRow, e, timeout) && Taken(s.rows[e.matchedRow], id))
    case _ => e.matchedRow == 0
  }

  lemma FirstIsFirst(s: Store, e: Event, timeout: int)
    requires IdsOk(s)
    ensures forall r :: FirstCandidate(s, e, timeout, 1) == Some(r) <==> FirstInWindow(s, r, e, timeout)
  {
    var found := FirstCandidate(s, e, timeout, 1);
    forall r | Candidate(s, r, e, timeout) ensures found.Some? && found.value <= r {
      assert 1 <= r < s.nextRow;
    }
  }

  /** What a match records beside the status: the row it names, with no other event changed. */
  lemma OutcomeNames(s: Store, id: int, timeout: int)
    requires IdsOk(s) && id in s.events && s.events[id].requestId != ""
    ensures var e := s.events[id]; var (status, t) := Apply(s, id, timeout);
      && t.events.Keys == s.events.Keys && (forall j | j in s.events && j != id :: t.events[j] == s.events[j])
      && t.events[id] == e.(status := status, matchedRow := t.events[id].matchedRow)
      && var m := t.events[id].matchedRow;
      && (status == Matched ==> FirstInWindow(s, m, e, timeout))
      && (status == Conflict ==> FirstInWindow(s, m, e, timeout) && Clash(s.rows[m], e))
      && (status == Duplicate ==>
            if OtherMatched(s, id, e.requestId) then m == 0 else FirstInWindow(s, m, e, timeout) && Taken(s.rows[m], id))
      && (status == Unmatched || status == Expired ==> m == 0)
  {
    hide FirstInWindow, FirstCandidate, AnyRow;
    FirstIsFirst(s, s.events[id], timeout);
  }

  ghost predicate AllNamed(s: Store, timeout: int) { forall id | id in s.events :: Names(s, id, timeout) }

  /** What a row keeps: its request, its time, a pointer once set, and its usage once it has some. */
  predicate RowKept(r: Row, r': Row) {
    && r'.requestId == r.requestId && r'.createdAt == r.createdAt
    && (r.sideEventId > 0 ==> r'.sideEventId == r.sideEventId)
    && (HasTokens(r.tokens) ==> r'.tokens == r.tokens)
  }

  /** All rows are kept, and new ones come behind them. */
  ghost predicate RowsKept(s: Store, t: Store) {
    && (forall r | r in s.rows :: r in t.rows && RowKept(s.rows[r], t.rows[r]))
    && (forall r | r in t.rows && r !in s.rows :: s.nextRow <= r)
  }

  lemma RowsKeptByStep(s: Store, a: Action, timeout: int)
    requires Inv(s, timeout)
    ensures RowsKept(s, Step(s, a, timeout))
  {
    hide FirstCandidate, OtherMatched, AnyRow, Inv, Filled, RowKept;
    forall r | r in s.rows ensures r in Step(s, a, timeout).rows && RowKept(s.rows[r], Step(s, a, timeout).rows[r]) {
      RowKeptByStep(s, a, timeout, r);
    }
  }

  lemma RowKeptByStep(s: Store, a: Action, timeout: int, r: int)
    requires Inv(s, timeout) && r in s.rows
    ensures var t := Step(s, a, timeout); r in t.rows && RowKept(s.rows[r], t.rows[r])
  {
    hide Step, Inv;
    StepEvolvesRows(s, a, timeout, r);
  }

  lemma FirstStays(s: Store, t: Store, e: Event, e': Event, timeout: int, m: int)
    requires IdsOk(s) && RowsKept(s, t) && FirstInWindow(s, m, e, timeout)
    requires e'.requestId == e.requestId && e'.receivedAt == e.receivedAt
    ensures FirstInWindow(t, m, e', timeout)
  {
    assert Candidate(t, m, e', timeout);
    forall q | Candidate(t, q, e', timeout) ensures m <= q {
      if q in s.rows { assert Candidate(s, q, e, timeout); }
    }
  }

  lemma MatchedNames(s: Store, id: int, timeout: int)
    requires Inv(s, timeout) && id in s.events && s.events[id].status == Matched
    ensures Names(s, id, timeout)
  {
    hide FirstCandidate, FirstInWindow;
    assert Paired(s, id, timeout);
    FirstIsFirst(s, s.events[id], timeout);
  }

  /** A status goes on naming its row. */
  lemma NamesKept(s: Store, t: Store, id: int, timeout: int)
    requires Inv(s, timeout) && Inv(t, timeout) && RowsKept(s, t)
    requires id in s.events && id in t.events && t.events[id] == s.events[id] && Names(s, id, timeout)
    ensures Names(t, id, timeout)
  {
    hide Inv, FirstInWindow, HasTokens;
    var e := s.events[id];
    assert IdsOk(s) by { InvIds(s, timeout); }
    if e.status == Matched {
      MatchedNames(t, id, timeout);
    } else if e.status == Conflict || e.matchedRow != 0 {
      FirstStays(s, t, e, e, timeout, e.matchedRow);
      assert e.matchedRow in s.rows by { FirstIsRow(s, e.matchedRow, e, timeout); }
    }
  }

  lemma InvIds(s: Store, timeout: int)
    requires Inv(s, timeout)
    ensures IdsOk(s)
  {}

  lemma FirstIsRow(s: Store, m: int, e: Event, timeout: int)
    requires FirstInWindow(s, m, e, timeout)
    ensures m in s.rows
  {}

  /** The event that was matched names its row. */
  lemma ApplyNames(s: Store, id: int, timeout: int)
    requires Inv(s, timeout) && id in s.events
    ensures Names(Apply(s, id, timeout).1, id, timeout)
  {
    var e := s.events[id];
    var (status, t) := Apply(s, id, timeout);
    hide Inv, FirstInWindow, FirstCandidate, HasTokens, OtherMatched, AnyRow, Filled;
    ApplyKeeps(s, id, timeout);
    assert IdsOk(s) && id > 0 by { InvIds(s, timeout); }
    if e.requestId != "" {
      OutcomeNames(s, id, timeout);
      if status == Matched {
        MatchedNames(t, id, timeout);
      } else if t.events[id].matchedRow != 0 {
        RowsKeptByStep(s, Match(id), timeout);
        FirstStays(s, t, e, t.events[id], timeout, t.events[id].matchedRow);
      }
    }
  }

  /** In every run each event names its row: above all a conflict the row whose usage it clashes with. */
  lemma {:induction false} EveryRunNames(actions: seq<Action>, timeout: int)
    requires AllFresh(actions)
    ensures AllNamed(Run(EMPTY, actions, timeout), timeout)
  {
    if actions != [] {
      var n := |actions| - 1;
      EveryRunNames(actions[..n], timeout);
      EveryRunKeepsInv(actions[..n], timeout);
      EveryRunKeepsInv(actions, timeout);
      StepNames(Run(EMPTY, actions[..n], timeout), actions[n], timeout);
    }
  }

  lemma StepNames(s: Store, a: Action, timeout: int)
    requires Inv(s, timeout) && Inv(Step(s, a, timeout), timeout) && AllNamed(s, timeout) && Fresh(a)
    ensures AllNamed(Step(s, a, timeout), timeout)
  {
    hide Inv, Names, FirstCandidate, OtherMatched, AnyRow, Filled, RowsKept;
    var t := Step(s, a, timeout);
    RowsKeptByStep(s, a, timeout);
    assert IdsOk(s) by { InvIds(s, timeout); }
    forall id | id in t.events ensures Names(t, id, timeout) {
      if a.Match? && a.id == id {
        ApplyNames(s, id, timeout);
      } else if id in s.events && t.events[id] == s.events[id] {
        NamesKept(s, t, id, timeout);
      } else {
        assert a.AddEvent? && id == s.nextEvent;
        NewNames(t, id, timeout);
      }
    }
  }

  lemma NewNames(s: Store, id: int, timeout: int)
    requires id in s.events && s.events[id].matchedRow == 0
    requires s.events[id].status == StoredOnly || s.events[id].status == InvalidPayload
    ensures Names(s, id, timeout)
  {}

  // ---------- observed usage ----------

  /** A name of nothing but spaces. */
  predicate Nameless(name: string) { forall c | c in name :: c == ' ' }

  lemma BlankIsNameless(name: string)
    ensures Blank(name) <==> Nameless(name)
  {
    if !Blank(name) {
      var k :| 0 <= k < |name| && name[k] != ' ';
      assert name[k] in name;
    }
  }

  /** A step gives the row its usage. */
  predicate Gains(r: Row, r': Row) { !HasTokens(r.tokens) && HasTokens(r'.tokens) }

  /**
   How one step may change a row: it gains the usage of the event matched, which then is its source, and with it the
   event's model if it has none of its own; it is pointed at the event; and nothing else.
   */
  predicate RowEvolves(r: Row, r': Row, a: Action, s: Store) {
    && r'.requestId == r.requestId && r'.createdAt == r.createdAt
    && (r'.tokens == r.tokens
        || (a.Match? && a.id in s.events && Gains(r, r') && r'.tokens == s.events[a.id].tokens))
    && (r'.sideEventId == r.sideEventId || (a.Match? && r.sideEventId == 0 && r'.sideEventId == a.id))
    && r'.usageSource == (if Gains(r, r') then "cliproxy_side_channel" else r.usageSource)
    && (if Gains(r, r') && Nameless(r.modelReturned) && a.Match? && a.id in s.events && s.events[a.id].model != ""
        then r'.modelReturned == s.events[a.id].model && r'.modelReturnedSource == "side_channel"
        else r'.modelReturned == r.modelReturned && r'.modelReturnedSource == r.modelReturnedSource)
  }

  lemma StepEvolvesRows(s: Store, a: Action, timeout: int, r: int)
    requires Inv(s, timeout) && r in s.rows
    ensures var s' := Step(s, a, timeout); r in s'.rows && RowEvolves(s.rows[r], s'.rows[r], a, s)
  {
    hide Blank, Nameless, FirstCandidate, OtherMatched, AnyRow;
    BlankIsNameless(s.rows[r].modelReturned);
    assert BackPointerOk(s, r);
  }

  /** An event that does not end matched leaves every row as it was. */
  lemma UnmatchedLeavesRows(s: Store, id: int, timeout: int)
    ensures Apply(s, id, timeout).0 != Matched ==> Apply(s, id, timeout).1.rows == s.rows
    ensures forall r | r in s.rows && Apply(s, id, timeout).1.rows[r] != s.rows[r] ::
              id in s.events && FirstCandidate(s, s.events[id], timeout, 1) == Some(r)
  {}

  lemma {:induction false} RowsStay(s: Store, actions: seq<Action>, timeout: int, r: int)
    requires Inv(s, timeout) && AllFresh(actions) && r in s.rows
    ensures Inv(Run(s, actions, timeout), timeout) && r in Run(s, actions, timeout).rows
  {
    if actions != [] {
      var n := |actions| - 1;
      RowsStay(s, actions[..n], timeout, r);
      var t := Run(s, actions[..n], timeout);
      StepEvolvesRows(t, actions[n], timeout, r);
      match actions[n]
      case AddRow(row) => AddRowKeeps(t, row, timeout);
      case AddEvent(e) => AddEventKeeps(t, e, timeout);
      case Match(id) => ApplyKeeps(t, id, timeout);
      case DeleteStale(cutoff) => DeleteKeeps(t, cutoff, timeout);
    }
  }

  /** The k-th action is the one that wrote the row's tokens, from the event it applied. */
  ghost predicate WrittenAt(s: Store, actions: seq<Action>, timeout: int, r: int, k: nat)
    requires k < |actions|
  {
    var t := Run(s, actions[..k], timeout);
    var t' := Run(s, actions[..k + 1], timeout);
    && actions[k].Match? && actions[k].id in t.events && r in t.rows && r in t'.rows
    && !HasTokens(t.rows[r].tokens) && t'.rows[r].tokens == t.events[actions[k].id].tokens
    && HasTokens(t'.rows[r].tokens)
  }

  /** The action that changed the row's tokens; the length of the run if none did. */
  function WriteIndex(s: Store, actions: seq<Action>, timeout: int, r: int): (k: nat)
    requires r in s.rows
    ensures k <= |actions|
  {
    if actions == [] then 0
    else
      var n := |actions| - 1;
      var k := WriteIndex(s, actions[..n], timeout, r);
      var t := Run(s, actions, timeout);
      if k < n then k else if r in t.rows && t.rows[r].tokens == s.rows[r].tokens then n + 1 else n
  }

  /** The row's tokens after the first `j` actions. */
  predicate TokensAre(s: Store, actions: seq<Action>, timeout: int, r: int, j: nat, tokens: Tokens)
    requires j <= |actions|
  {
    var t := Run(s, actions[..j], timeout);
    r in t.rows && t.rows[r].tokens == tokens
  }

  lemma TokensOfPrefix(s: Store, actions: seq<Action>, timeout: int, r: int, n: nat, j: nat, tokens: Tokens)
    requires j <= n <= |actions|
    ensures TokensAre(s, actions[..n], timeout, r, j, tokens) <==> TokensAre(s, actions, timeout, r, j, tokens)
  {
    assert actions[..n][..j] == actions[..j];
  }

  lemma WrittenInPrefix(s: Store, actions: seq<Action>, timeout: int, r: int, n: nat, k: nat)
    requires k < n <= |actions| && WrittenAt(s, actions[..n], timeout, r, k)
    ensures WrittenAt(s, actions, timeout, r, k)
    ensures forall tokens | TokensAre(s, actions[..n], timeout, r, k + 1, tokens) :: HasTokens(tokens)
  {
    assert actions[..n][..k] == actions[..k] && actions[..n][..k + 1] == actions[..k + 1];
  }

  lemma WrittenLast(s: Store, actions: seq<Action>, timeout: int, r: int, n: nat)
    requires |actions| == n + 1 && r in Run(s, actions[..n], timeout).rows && r in Run(s, actions, timeout).rows
    requires RowEvolves(Run(s, actions[..n], timeout).rows[r], Run(s, actions, timeout).rows[r], actions[n],
                        Run(s, actions[..n], timeout))
    requires Run(s, actions[..n], timeout).rows[r].tokens != Run(s, actions, timeout).rows[r].tokens
    ensures WrittenAt(s, actions, timeout, r, n)
  {
    assert actions[..n + 1] == actions;
  }

  lemma WholeRun(s: Store, actions: seq<Action>, timeout: int, r: int, tokens: Tokens)
    ensures TokensAre(s, actions, timeout, r, |actions|, tokens)
       <==> r in Run(s, actions, timeout).rows && Run(s, actions, timeout).rows[r].tokens == tokens
  {
    assert actions[..|actions|] == actions;
  }

  lemma EvolvedTokens(r: Row, r': Row, a: Action, s: Store)
    requires RowEvolves(r, r', a, s)
    ensures HasTokens(r.tokens) ==> r'.tokens == r.tokens
  {}

  /** The row keeps its tokens up to its write, if there is one, and the written ones from there on. */
  ghost predicate WrittenOnce(s: Store, actions: seq<Action>, timeout: int, r: int) {
    && r in s.rows && r in Run(s, actions, timeout).rows
    && var k := WriteIndex(s, actions, timeout, r);
    && (k < |actions| ==> WrittenAt(s, actions, timeout, r, k))
    && (forall j: nat | j <= k :: TokensAre(s, actions, timeout, r, j, s.rows[r].tokens))
    && (forall j: nat | k < j <= |actions| ::
          TokensAre(s, actions, timeout, r, j, Run(s, actions, timeout).rows[r].tokens))
  }

  lemma OneMoreAction(s: Store, actions: seq<Action>, timeout: int, r: int, n: nat)
    requires |actions| == n + 1 && WrittenOnce(s, actions[..n], timeout, r) && r in Run(s, actions, timeout).rows
    requires RowEvolves(Run(s, actions[..n], timeout).rows[r], Run(s, actions, timeout).rows[r], actions[n],
                        Run(s, actions[..n], timeout))
    ensures WrittenOnce(s, actions, timeout, r)
  {
    hide Run, TokensAre, RowEvolves, WrittenAt;
    var before := actions[..n];
    var row, row' := Run(s, before, timeout).rows[r], Run(s, actions, timeout).rows[r];
    var k := WriteIndex(s, before, timeout, r);
    WholeRun(s, actions, timeout, r, row'.tokens);
    WholeRun(s, before, timeout, r, row.tokens);
    forall j: nat | j <= n
      ensures TokensAre(s, before, timeout, r, j, s.rows[r].tokens) ==> TokensAre(s, actions, timeout, r, j, s.rows[r].tokens)
      ensures TokensAre(s, before, timeout, r, j, row.tokens) ==> TokensAre(s, actions, timeout, r, j, row.tokens)
    {
      TokensOfPrefix(s, actions, timeout, r, n, j, s.rows[r].tokens);
      TokensOfPrefix(s, actions, timeout, r, n, j, row.tokens);
    }
    if k < n {
      WrittenInPrefix(s, actions, timeout, r, n, k);
      EvolvedTokens(row, row', actions[n], Run(s, before, timeout));
    } else {
      WholeRun(s, before, timeout, r, s.rows[r].tokens);
      if row'.tokens != s.rows[r].tokens { WrittenLast(s, actions, timeout, r, n); }
    }
  }

  /**
   Observed usage is never overwritten: over any run a row keeps the tokens it had
   or, if it had none, gets those of one event at one step and keeps them.
   */
  lemma {:induction false} UsageWrittenOnce(s: Store, actions: seq<Action>, timeout: int, r: int)
    requires Inv(s, timeout) && AllFresh(actions) && r in s.rows
    ensures WrittenOnce(s, actions, timeout, r)
  {
    if actions == [] {
      assert actions[..0] == actions;
    } else {
      hide WrittenOnce, Inv, RowEvolves;
      var n := |actions| - 1;
      UsageWrittenOnce(s, actions[..n], timeout, r);
      RowsStay(s, actions[..n], timeout, r);
      StepEvolvesRows(Run(s, actions[..n], timeout), actions[n], timeout, r);
      OneMoreAction(s, actions, timeout, r, n);
    }
  }

  /** Where the row's usage, source and model come from, when the k-th action of a run wrote its usage. */
  ghost predicate FilledFrom(s: Store, actions: seq<Action>, timeout: int, r: int, k: nat)
    requires k < |actions| && r in s.rows && r in Run(s, actions, timeout).rows
  {
    var t := Run(s, actions[..k], timeout);
    && actions[k].Match? && actions[k].id in t.events
    && var e, row, row' := t.events[actions[k].id], s.rows[r], Run(s, actions, timeout).rows[r];
    && row'.tokens == e.tokens && row'.usageSource == "cliproxy_side_channel"
    && (if Nameless(row.modelReturned) && e.model != ""
        then row'.modelReturned == e.model && row'.modelReturnedSource == "side_channel"
        else row'.modelReturned == row.modelReturned && row'.modelReturnedSource == row.modelReturnedSource)
  }

  predicate SameUsage(r: Row, r': Row) {
    r'.tokens == r.tokens && r'.usageSource == r.usageSource
    && r'.modelReturned == r.modelReturned && r'.modelReturnedSource == r.modelReturnedSource
  }

  /** One more action behind the write, or the write itself. */
  lemma FilledNext(s: Store, actions: seq<Action>, timeout: int, r: int, n: nat, k: nat)
    requires |actions| == n + 1 && k <= n && r in s.rows && r in Run(s, actions[..n], timeout).rows && r in Run(s, actions, timeout).rows
    requires RowEvolves(Run(s, actions[..n], timeout).rows[r], Run(s, actions, timeout).rows[r], actions[n],
                        Run(s, actions[..n], timeout))
    requires if k < n then FilledFrom(s, actions[..n], timeout, r, k) && HasTokens(Run(s, actions[..n], timeout).rows[r].tokens)
             else SameUsage(s.rows[r], Run(s, actions[..n], timeout).rows[r])
                  && Gains(Run(s, actions[..n], timeout).rows[r], Run(s, actions, timeout).rows[r])
    ensures FilledFrom(s, actions, timeout, r, k)
  {
    hide Run, HasTokens, Nameless;
    if k < n {
      assert actions[..n][..k] == actions[..k] && actions[..n][k] == actions[k];
    }
  }

  /**
   The provenance of a row after any run: as it was, when its usage is; otherwise all of it from the one event that
   wrote the usage, except a model of its own.
   */
  lemma {:induction false} ProvenanceExactly(s: Store, actions: seq<Action>, timeout: int, r: int)
    requires Inv(s, timeout) && AllFresh(actions) && r in s.rows
    ensures r in Run(s, actions, timeout).rows
    ensures var k := WriteIndex(s, actions, timeout, r);
      if k < |actions| then FilledFrom(s, actions, timeout, r, k) && HasTokens(Run(s, actions, timeout).rows[r].tokens)
      else SameUsage(s.rows[r], Run(s, actions, timeout).rows[r])
  {
    if actions != [] {
      hide Inv, RowEvolves, FilledFrom, Step, HasTokens;
      var n := |actions| - 1;
      ProvenanceExactly(s, actions[..n], timeout, r);
      RowsStay(s, actions[..n], timeout, r);
      var t := Run(s, actions[..n], timeout);
      StepEvolvesRows(t, actions[n], timeout, r);
      var row, row' := t.rows[r], Run(s, actions, timeout).rows[r];
      EvolvedUsage(row, row', actions[n], t);
      var k := WriteIndex(s, actions[..n], timeout, r);
      if k < n {
        FilledNext(s, actions, timeout, r, n, k);
      } else if row'.tokens != s.rows[r].tokens {
        FilledNext(s, actions, timeout, r, n, n);
      }
    }
  }

  lemma EvolvedUsage(r: Row, r': Row, a: Action, s: Store)
    requires RowEvolves(r, r', a, s)
    ensures HasTokens(r.tokens) ==> HasTokens(r'.tokens)
    ensures r'.tokens != r.tokens ==> Gains(r, r')
    ensures r'.tokens == r.tokens ==> SameUsage(r, r')
    ensures Gains(r, r') ==> HasTokens(r'.tokens)
  {}

  /** A row's side event goes from none to one, and never to another. */
  lemma {:induction false} SideEventSetOnce(s: Store, actions: seq<Action>, timeout: int, r: int)
    requires Inv(s, timeout) && AllFresh(actions) && r in s.rows && s.rows[r].sideEventId != 0
    ensures r in Run(s, actions, timeout).rows
    ensures Run(s, actions, timeout).rows[r].sideEventId == s.rows[r].sideEventId
  {
    if actions != [] {
      var n := |actions| - 1;
      SideEventSetOnce(s, actions[..n], timeout, r);
      RowsStay(s, actions[..n], timeout, r);
      StepEvolvesRows(Run(s, actions[..n], timeout), actions[n], timeout, r);
    }
  }

  /** Usage that was recorded, and so is not negative, is no usage only when it is zero throughout. */
  lemma NoTokensExactly(t: Tokens)
    requires t.input >= 0 && t.output >= 0 && t.reasoning >= 0 && t.cached >= 0 && t.cacheCreation >= 0 && t.total >= 0
    ensures !HasTokens(t) <==> t == Tokens(0, 0, 0, 0, 0, 0)
  {}

  /** The window reaches as far before the event as after it, its ends included. */
  lemma WindowExactly(r: Row, e: Event, timeout: int)
    ensures var apart := if r.createdAt < e.receivedAt then e.receivedAt - r.createdAt else r.createdAt - e.receivedAt;
      InWindow(r, e, timeout) <==> apart <= if timeout > 0 then timeout else 600
  {}

  /** A timeout that is not positive is ten minutes. */
  lemma TimeoutDefaults(s: Store, id: int, timeout: int)
    requires timeout <= 0
    ensures Apply(s, id, timeout) == Apply(s, id, 600)
  {
    if id in s.events { FirstDefaults(s, s.events[id], timeout, 1); }
  }

  lemma {:induction false} FirstDefaults(s: Store, e: Event, timeout: int, i: int)
    requires timeout <= 0
    ensures FirstCandidate(s, e, timeout, i) == FirstCandidate(s, e, 600, i)
    decreases s.nextRow - i
  {
    if i < s.nextRow && !Candidate(s, i, e, timeout) { FirstDefaults(s, e, timeout, i + 1); }
  }

  /** Under any other timeout, re-applying a matched event changes nothing exactly when its row is still the first choice. */
  lemma ReapplyExactly(s: Store, id: int, timeout: int, other: int)
    requires Inv(s, timeout) && id in s.events && s.events[id].status == Matched
    ensures Apply(s, id, other) == (Matched, s) <==> FirstInWindow(s, s.events[id].matchedRow, s.events[id], other)
  {
    var e := s.events[id];
    assert Paired(s, id, timeout);
    var first := FirstCandidate(s, e, other, 1);
    if FirstInWindow(s, e.matchedRow, e, other) {
      assert first == Some(e.matchedRow);
      assert s.events[id := e] == s.events;
      assert s.rows[e.matchedRow := s.rows[e.matchedRow]] == s.rows;
    }
  }

  /**
   Applied again with a wider window, an event can be matched to an earlier row while the
   first still points at it. The poller applies every event once, right after it is stored,
   so that only another caller of the store could do this.
   */
  lemma WiderWindowLeavesTwoRows()
    ensures var none := Tokens(0, 0, 0, 0, 0, 0);
      var early := Row("q", 0, none, "", "", "", 0);
      var late := Row("q", 1000, none, "", "", "", 0);
      var e := Event("q", 1000, none, "", StoredOnly, 0);
      var s := Run(EMPTY, [AddRow(early), AddRow(late), AddEvent(e), Match(1)], 600);
      var s' := Apply(s, 1, 2000).1;
      && Inv(s, 600) && 1 in s.events && s.events[1].matchedRow == 2
      && 1 in s'.events && 1 in s'.rows && 2 in s'.rows && s'.events[1].matchedRow == 1
      && s'.rows[1].sideEventId == 1 && s'.rows[2].sideEventId == 1
  {
    var none := Tokens(0, 0, 0, 0, 0, 0);
    var early := Row("q", 0, none, "", "", "", 0);
    var late := Row("q", 1000, none, "", "", "", 0);
    var e := Event("q", 1000, none, "", StoredOnly, 0);
    var actions := [AddRow(early), AddRow(late), AddEvent(e), Match(1)];
    EveryRunKeepsInv(actions, 600);
    hide Inv;
    var s1 := Store(map[1 := early], map[], 2, 1);
    var s2 := Store(map[1 := early, 2 := late], map[], 3, 1);
    var s3 := Store(map[1 := early, 2 := late], map[1 := e], 3, 2);
    assert actions[..3] == [AddRow(early), AddRow(late), AddEvent(e)];
    assert actions[..3][..2] == [AddRow(early), AddRow(late)];
    assert [AddRow(early), AddRow(late)][..1] == [AddRow(early)];
    assert Run(EMPTY, [AddRow(early)], 600) == s1;
    assert Run(EMPTY, [AddRow(early), AddRow(late)], 600) == s2;
    assert Run(EMPTY, actions[..3], 600) == s3;
    assert FirstCandidate(s3, e, 600, 1) == Some(2);
    var s := Apply(s3, 1, 600).1;
    assert FirstCandidate(s, s.events[1], 2000, 1) == Some(1);
  }
}
