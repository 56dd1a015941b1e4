/** Merging the error timelines of several sources into one point per timestamp. */
module TimelineMerge {
  import opened Bytes
  import opened Sums

  datatype Point = Point(timestamp: string, count: int, parseErrors: int, dbErrors: int, droppedEvents: int,
                         baselineMissing: bool)

  /** Points without a timestamp are gathered as unknown. */
  function KeyOf(): Point -> string { (p: Point) => if p.timestamp == "" then "unknown" else p.timestamp }

  /** The timestamp stays that of the first point; a missing baseline sticks. */
  function Join(a: Point, b: Point): Point {
    Point(a.timestamp, a.count + b.count, a.parseErrors + b.parseErrors, a.dbErrors + b.dbErrors,
          a.droppedEvents + b.droppedEvents, a.baselineMissing || b.baselineMissing)
  }

  function Joined(points: seq<Point>): Point
    requires points != []
  {
    if |points| == 1 then points[0] else Join(Joined(points[..|points| - 1]), points[|points| - 1])
  }

  /** The map holds, for every key seen, its points joined. */
  ghost predicate Gathered(byKey: map<string, Point>, points: seq<Point>) {
    && (forall k :: k in byKey <==> Part(points, KeyOf(), k) != [])
    && (forall k | k in byKey :: byKey[k] == Joined(Part(points, KeyOf(), k)))
  }

  lemma GatherNext(byKey: map<string, Point>, points: seq<Point>, p: Point)
    requires Gathered(byKey, points)
    ensures var k := KeyOf()(p);
      Gathered(byKey[k := if k in byKey then Join(byKey[k], p) else p], points + [p])
  {
    hide Part, Joined, KeyOf;
    forall k { PartSnoc(points, p, KeyOf(), k); }
    ConcatEmpty([p]);
    JoinedNext(Part(points, KeyOf(), KeyOf()(p)), p);
  }

  lemma JoinedNext(points: seq<Point>, p: Point)
    ensures points + [p] != []
    ensures Joined(points + [p]) == if points == [] then p else Join(Joined(points), p)
  {
    ConcatSnoc(points, p);
  }

  // ---------- the order of timestamps ----------

  /** Strings are compared character by character, a proper prefix first. */
  predicate Below(a: string, b: string) {
    b != [] && (a == [] || a[0] < b[0] || (a[0] == b[0] && Below(a[1..], b[1..])))
  }

  lemma {:induction false} BelowTransitive(a: string, b: string, c: string)
    requires Below(a, b) && Below(b, c)
    ensures Below(a, c)
  {
    if a != [] && a[0] == b[0] == c[0] { BelowTransitive(a[1..], b[1..], c[1..]); }
  }

  lemma {:induction false} BelowTotal(a: string, b: string)
    ensures Below(a, b) || a == b || Below(b, a)
  {
    if a != [] && b != [] && a[0] == b[0] {
      BelowTotal(a[1..], b[1..]);
      if a[1..] == b[1..] { assert a == [a[0]] + a[1..] && b == [b[0]] + b[1..]; }
    }
  }

  lemma {:induction false} BelowIrreflexive(a: string)
    ensures !Below(a, a)
  {
    if a != [] { BelowIrreflexive(a[1..]); }
  }

  /** Strictly ascending timestamps, hence distinct ones. */
  predicate Ascending(points: seq<Point>) {
    forall i, j | 0 <= i < j < |points| :: Below(points[i].timestamp, points[j].timestamp)
  }

  lemma AscendingIsDistinct(points: seq<Point>)
    requires Ascending(points)
    ensures forall i, j | 0 <= i < j < |points| :: points[i].timestamp != points[j].timestamp
  {
    forall i, j | 0 <= i < j < |points| ensures points[i].timestamp != points[j].timestamp {
      BelowIrreflexive(points[i].timestamp);
    }
  }

  /** Where a new timestamp belongs; the library sort is modelled by insertion. */
  method InsertSorted(sorted: seq<Point>, p: Point) returns (r: seq<Point>)
    requires Ascending(sorted) && forall q | q in sorted :: q.timestamp != p.timestamp
    ensures Ascending(r) && forall q :: q in r <==> q == p || q in sorted
  {
    hide Below;
    var i := 0;
    while i < |sorted| && Below(sorted[i].timestamp, p.timestamp)
      invariant 0 <= i <= |sorted|
      invariant forall j | 0 <= j < i :: Below(sorted[j].timestamp, p.timestamp)
    {
      i := i + 1;
    }
    r := sorted[..i] + [p] + sorted[i..];
    assert sorted == sorted[..i] + sorted[i..];
    InsertedAscends(sorted, p, i);
  }

  lemma InsertedAscends(sorted: seq<Point>, p: Point, i: nat)
    requires Ascending(sorted) && i <= |sorted| && forall q | q in sorted :: q.timestamp != p.timestamp
    requires forall j | 0 <= j < i :: Below(sorted[j].timestamp, p.timestamp)
    requires i < |sorted| ==> !Below(sorted[i].timestamp, p.timestamp)
    ensures Ascending(sorted[..i] + [p] + sorted[i..])
  {
    var r := sorted[..i] + [p] + sorted[i..];
    if i < |sorted| {
      assert sorted[i] in sorted;
      BelowTotal(sorted[i].timestamp, p.timestamp);
    }
    hide Below;
    forall a, b | 0 <= a < b < |r| ensures Below(r[a].timestamp, r[b].timestamp) {
      assert r[a] == (if a < i then sorted[a] else if a == i then p else sorted[a - 1]);
      assert r[b] == (if b < i then sorted[b] else if b == i then p else sorted[b - 1]);
      if a == i && b > i + 1 { BelowTransitive(p.timestamp, sorted[i].timestamp, sorted[b - 1].timestamp); }
    }
  }

  // ---------- merging ----------

  /** One point per key that occurs, being the points of that key joined. */
  ghost predicate Combines(combined: seq<Point>, points: seq<Point>) {
    forall p :: p in combined <==> exists k :: Part(points, KeyOf(), k) != [] && p == Joined(Part(points, KeyOf(), k))
  }

  method GatherRows(byKey: map<string, Point>, rows: seq<Point>, ghost done: seq<Point>)
    returns (grown: map<string, Point>)
    requires Gathered(byKey, done)
    ensures Gathered(grown, done + rows)
  {
    hide Gathered;
    grown := byKey;
    ConcatEmpty(done);
    for j := 0 to |rows|
      invariant Gathered(grown, done + rows[..j])
    {
      var row := rows[j];
      GatherNext(grown, done + rows[..j], row);
      ConcatAssociates(done, rows[..j], [row]);
      assert rows[..j + 1] == rows[..j] + [row];
      var key := if row.timestamp == "" then "unknown" else row.timestamp;
      if key !in grown {
        grown := grown[key := row];
        continue;
      }
      grown := grown[key := Join(grown[key], row)];
    }
    assert rows[..|rows|] == rows;
  }

  method Gather(groups: seq<seq<Point>>) returns (byKey: map<string, Point>)
    ensures Gathered(byKey, Flatten(groups))
  {
    hide Part;
    byKey := map[];
    NothingGathered();
    for i := 0 to |groups|
      invariant Gathered(byKey, Flatten(groups[..i]))
    {
      byKey := GatherRows(byKey, groups[i], Flatten(groups[..i]));
      FlattenSnoc(groups[..i], groups[i]);
      assert groups[..i + 1] == groups[..i] + [groups[i]];
    }
    assert groups[..|groups|] == groups;
  }

  lemma NothingGathered()
    ensures Gathered(map[], [])
  {}

  lemma {:induction false} JoinedKeepsKey(points: seq<Point>, k: string)
    requires points != [] && forall p | p in points :: KeyOf()(p) == k
    ensures KeyOf()(Joined(points)) == k
  {
    if |points| > 1 { JoinedKeepsKey(points[..|points| - 1], k); }
    else { assert points[0] in points; }
  }

  lemma GatheredKeys(byKey: map<string, Point>, points: seq<Point>)
    requires Gathered(byKey, points)
    ensures forall k | k in byKey :: KeyOf()(byKey[k]) == k
  {
    forall k | k in byKey ensures KeyOf()(byKey[k]) == k {
      PartMembers(points, KeyOf(), k);
      JoinedKeepsKey(Part(points, KeyOf(), k), k);
    }
  }

  method CombineErrorTimelines(groups: seq<seq<Point>>) returns (combined: seq<Point>)
    ensures Ascending(combined) && Combines(combined, Flatten(groups))
  {
    var byKey := Gather(groups);
    GatheredKeys(byKey, Flatten(groups));
    hide Joined, Part;
    combined := [];
    var rest := byKey.Keys;
    while rest != {}
      invariant rest <= byKey.Keys && Ascending(combined)
      invariant forall p :: p in combined <==> exists k :: k in byKey && k !in rest && byKey[k] == p
      decreases rest
    {
      var k :| k in rest;
      rest := rest - {k};
      assert forall q | q in combined :: q.timestamp != byKey[k].timestamp;
      ghost var before := combined;
      combined := InsertSorted(combined, byKey[k]);
    }
  }

  // ---------- what merging keeps ----------

  datatype Column = Count | ParseErrors | DbErrors | DroppedEvents

  function ValueOf(col: Column): Point -> int {
    (p: Point) => match col
      case Count => p.count case ParseErrors => p.parseErrors case DbErrors => p.dbErrors
      case DroppedEvents => p.droppedEvents
  }

  lemma {:induction false} JoinedTotal(points: seq<Point>, col: Column)
    requires points != []
    ensures ValueOf(col)(Joined(points)) == Total(points, ValueOf(col))
    ensures Joined(points).baselineMissing <==> exists p :: p in points && p.baselineMissing
  {
    if |points| > 1 {
      var init, last := points[..|points| - 1], points[|points| - 1];
      JoinedTotal(init, col);
      SplitLast(points);
      TotalAppend(init, [last], ValueOf(col));
    }
  }

  function Keys(points: seq<Point>): (ks: seq<string>)
    ensures |ks| == |points| && forall i | 0 <= i < |points| :: ks[i] == KeyOf()(points[i])
  {
    seq(|points|, i requires 0 <= i < |points| => KeyOf()(points[i]))
  }

  lemma {:induction false} TotalOfJoined(combined: seq<Point>, points: seq<Point>, col: Column)
    requires forall p | p in combined :: Part(points, KeyOf(), KeyOf()(p)) != []
                                      && p == Joined(Part(points, KeyOf(), KeyOf()(p)))
    ensures Total(combined, ValueOf(col)) == TotalOfParts(points, KeyOf(), Keys(combined), ValueOf(col))
  {
    hide Part, Joined;
    if combined != [] {
      assert combined[0] in combined;
      JoinedTotal(Part(points, KeyOf(), KeyOf()(combined[0])), col);
      TotalOfJoined(combined[1..], points, col);
      assert Keys(combined)[1..] == Keys(combined[1..]);
    }
  }

  /** Distinct timestamps make distinct keys, since the unknown ones have been gathered. */
  lemma MergedKeys(combined: seq<Point>, points: seq<Point>)
    requires Ascending(combined) && Combines(combined, points)
    ensures Lists(Keys(combined), points, KeyOf())
    ensures forall p | p in combined :: Part(points, KeyOf(), KeyOf()(p)) != []
                                      && p == Joined(Part(points, KeyOf(), KeyOf()(p)))
  {
    forall p | p in combined
      ensures Part(points, KeyOf(), KeyOf()(p)) != [] && p == Joined(Part(points, KeyOf(), KeyOf()(p)))
    {
      var k :| Part(points, KeyOf(), k) != [] && p == Joined(Part(points, KeyOf(), k));
      PartMembers(points, KeyOf(), k);
      JoinedKeepsKey(Part(points, KeyOf(), k), k);
    }
    AscendingIsDistinct(combined);
    forall i, j | 0 <= i < j < |combined| ensures Keys(combined)[i] != Keys(combined)[j] {
      assert combined[i] in combined && combined[j] in combined;
    }
    forall x | x in points ensures KeyOf()(x) in Keys(combined) {
      var k := KeyOf()(x);
      PartMembers(points, KeyOf(), k);
      var p := Joined(Part(points, KeyOf(), k));
      JoinedKeepsKey(Part(points, KeyOf(), k), k);
      assert p in combined;
      var i :| 0 <= i < |combined| && combined[i] == p;
      assert Keys(combined)[i] == k;
    }
  }

  /** Merging loses and invents nothing in any column, and gives every timestamp once. */
  lemma MergingConserves(groups: seq<seq<Point>>, combined: seq<Point>, col: Column)
    requires Ascending(combined) && Combines(combined, Flatten(groups))
    ensures Total(combined, ValueOf(col)) == Total(Flatten(groups), ValueOf(col))
    ensures forall i, j | 0 <= i < j < |combined| :: combined[i].timestamp != combined[j].timestamp
  {
    var points := Flatten(groups);
    MergedKeys(combined, points);
    AscendingIsDistinct(combined);
    TotalOfJoined(combined, points, col);
    SumByParts(points, KeyOf(), Keys(combined), (p: Point) => 0.0, ValueOf(col));
  }

  function StampOf(): Point -> string { (p: Point) => p.timestamp }

  /** A timestamp of its own. */
  predicate Dated(t: string) { t != "" && t != "unknown" }

  lemma {:induction false} PartOfStamp(points: seq<Point>, t: string)
    requires Dated(t)
    ensures Part(points, KeyOf(), t) == Part(points, StampOf(), t)
  {
    if points != [] { PartOfStamp(points[1..], t); }
  }

  /**
   Row by row: there is one for every timestamp that a point has, with the totals of exactly the points that have it;
   and at most one more, of the points without a timestamp.
   */
  lemma RowsByTimestamp(groups: seq<seq<Point>>, combined: seq<Point>, t: string, col: Column)
    requires Ascending(combined) && Combines(combined, Flatten(groups)) && Dated(t)
    ensures (exists p :: p in combined && p.timestamp == t) <==> exists p :: p in Flatten(groups) && p.timestamp == t
    ensures forall p | p in combined && p.timestamp == t ::
              ValueOf(col)(p) == Total(Part(Flatten(groups), StampOf(), t), ValueOf(col))
              && (p.baselineMissing <==> exists q :: q in Flatten(groups) && q.timestamp == t && q.baselineMissing)
    ensures forall p, q | p in combined && q in combined && !Dated(p.timestamp) && !Dated(q.timestamp) :: p == q
  {
    hide Part, Joined;
    var points := Flatten(groups);
    MergedKeys(combined, points);
    PartOfStamp(points, t);
    PartMembers(points, KeyOf(), t);
    var here := Part(points, KeyOf(), t);
    forall p | p in combined && p.timestamp == t
      ensures ValueOf(col)(p) == Total(here, ValueOf(col))
      ensures p.baselineMissing <==> exists q :: q in points && q.timestamp == t && q.baselineMissing
    {
      JoinedTotal(here, col);
      assert p == Joined(here);
    }
    if q :| q in points && q.timestamp == t {
      assert q in here;
      JoinedKeepsKey(here, t);
      assert Joined(here) in combined && KeyOf()(Joined(here)) == t;
    }
    if p :| p in combined && p.timestamp == t { assert here != [] && here[0] in here; }
  }
}
