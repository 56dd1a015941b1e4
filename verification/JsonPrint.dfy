/**
 JSON texts with every byte of white space kept, and the proof that the scanner
 reads back what the printer wrote: values are skipped exactly, and a lookup
 answers with the first top-level member of that key or with nothing.
 */
module JsonPrint {
  import opened Bytes
  import opened JsonScan

  /**
   A JSON value as written (RFC 8259, sections 2 to 7).  `raw` is a string's
   text between its quotes; `text` is a number or a literal name.
   */
  datatype Json =
    | Atom(text: seq<byte>)
    | Str(raw: seq<byte>)
    | Arr(lead: seq<byte>, items: Items)
    | Obj(lead: seq<byte>, members: Members)

  datatype Items = NoItems | Item(before: seq<byte>, value: Json, after: seq<byte>, rest: Items)

  datatype Members =
    | NoMembers
    | Field(before: seq<byte>, key: seq<byte>, afterKey: seq<byte>, beforeValue: seq<byte>,
            value: Json, after: seq<byte>, rest: Members)

  function Quoted(raw: seq<byte>): seq<byte> { [QUOTE] + (raw + [QUOTE]) }

  function Print(v: Json): (s: seq<byte>)
    ensures s != [] || (v.Atom? && v.text == [])
  {
    match v
    case Atom(text) => text
    case Str(raw) => Quoted(raw)
    case Arr(lead, items) => [LBRACKET] + ((lead + PrintItems(items)) + [RBRACKET])
    case Obj(lead, members) => [LBRACE] + ((lead + PrintMembers(members)) + [RBRACE])
  }

  function PrintItems(items: Items): seq<byte>
    decreases items, 1
  {
    match items
    case NoItems => []
    case Item(_, _, _, _) => ItemText(items)
  }

  /** An item's text with the items that follow. */
  function ItemText(items: Items): seq<byte>
    requires items.Item?
    decreases items, 0
  {
    var more := if items.rest.NoItems? then [] else [COMMA] + PrintItems(items.rest);
    items.before + (Print(items.value) + (items.after + more))
  }

  function PrintMembers(members: Members): seq<byte>
    decreases members, 1
  {
    match members
    case NoMembers => []
    case Field(before, key, afterKey, beforeValue, value, after, rest) =>
      before + (Quoted(key) + (afterKey + ([COLON] + AfterColon(members))))
  }

  /** A member's text from its colon on, with the members that follow. */
  function AfterColon(members: Members): seq<byte>
    requires members.Field?
    decreases members, 0
  {
    var more := if members.rest.NoMembers? then [] else [COMMA] + PrintMembers(members.rest);
    members.beforeValue + (Print(members.value) + (members.after + more))
  }

  predicate AllWs(s: seq<byte>) { forall k | 0 <= k < |s| :: IsWs(s[k]) }

  /** String text: a backslash always has a byte to escape, and no bare quote occurs. */
  predicate RawOk(raw: seq<byte>) {
    if raw == [] then true
    else if raw[0] == BACKSLASH then |raw| >= 2 && RawOk(raw[2..])
    else raw[0] != QUOTE && RawOk(raw[1..])
  }

  predicate IsPlain(b: byte) { b !in {QUOTE, LBRACE, RBRACE, LBRACKET, RBRACKET} }

  predicate AllPlain(s: seq<byte>) { forall k | 0 <= k < |s| :: IsPlain(s[k]) }

  /** Numbers and literal names are non-empty and hold no structural byte. */
  predicate AtomOk(text: seq<byte>) {
    text != [] && AllPlain(text) && forall k | 0 <= k < |text| :: !IsDelimiter(text[k])
  }

  predicate WellFormed(v: Json) {
    match v
    case Atom(text) => AtomOk(text)
    case Str(raw) => RawOk(raw)
    case Arr(lead, items) => AllWs(lead) && ItemsOk(items)
    case Obj(lead, members) => AllWs(lead) && MembersOk(members)
  }

  predicate ItemsOk(items: Items) {
    match items
    case NoItems => true
    case Item(before, value, after, rest) =>
      AllWs(before) && WellFormed(value) && AllWs(after) && ItemsOk(rest)
  }

  predicate MembersOk(members: Members) {
    match members
    case NoMembers => true
    case Field(before, key, afterKey, beforeValue, value, after, rest) =>
      && AllWs(before) && RawOk(key) && AllWs(afterKey) && AllWs(beforeValue)
      && WellFormed(value) && AllWs(after) && MembersOk(rest)
  }

  // ---------- text at a position of a body ----------

  predicate At(body: seq<byte>, i: nat, s: seq<byte>) {
    i + |s| <= |body| && body[i..i + |s|] == s
  }

  lemma AtSplit(body: seq<byte>, i: nat, a: seq<byte>, b: seq<byte>)
    requires At(body, i, a + b)
    ensures At(body, i, a) && At(body, i + |a|, b)
    ensures i + |a| + |b| <= |body|
  {
    var whole := body[i..i + |a + b|];
    assert body[i..i + |a|] == whole[..|a|] == a;
    assert body[i + |a|..i + |a| + |b|] == whole[|a|..] == b;
  }

  lemma AtByte(body: seq<byte>, i: nat, s: seq<byte>, k: nat)
    requires At(body, i, s) && k < |s|
    ensures i + k < |body| && body[i + k] == s[k]
  {
    assert body[i..i + |s|][k] == body[i + k];
  }

  lemma AtSlice(body: seq<byte>, i: nat, s: seq<byte>)
    requires At(body, i, s)
    ensures i + |s| <= |body| && body[i..i + |s|] == s
  {}

  lemma AtTail(body: seq<byte>, i: nat, s: seq<byte>)
    requires At(body, i, s) && s != []
    ensures At(body, i + 1, s[1..]) && i < |body| && body[i] == s[0]
  {
    assert s == [s[0]] + s[1..];
    AtSplit(body, i, [s[0]], s[1..]);
    AtByte(body, i, s, 0);
  }

  // ---------- the simple scanners over printed text ----------

  lemma {:induction false} WsSkipped(body: seq<byte>, i: nat, ws: seq<byte>)
    requires At(body, i, ws) && AllWs(ws)
    ensures SkipWs(body, i) == SkipWs(body, i + |ws|)
    decreases |ws|
  {
    if ws != [] {
      AtTail(body, i, ws);
      WsSkipped(body, i + 1, ws[1..]);
    }
  }

  lemma WsSkippedTo(body: seq<byte>, i: nat, ws: seq<byte>)
    requires At(body, i, ws) && AllWs(ws)
    requires i + |ws| < |body| && !IsWs(body[i + |ws|])
    ensures SkipWs(body, i) == i + |ws|
  {
    hide At;
    WsSkipped(body, i, ws);
  }

  lemma {:induction false} RawScanned(body: seq<byte>, i: nat, raw: seq<byte>)
    requires At(body, i, raw + [QUOTE]) && RawOk(raw)
    ensures InString(body, i, false) == Some(i + |raw| + 1)
    decreases |raw|
  {
    AtTail(body, i, raw + [QUOTE]);
    if raw != [] {
      assert (raw + [QUOTE])[1..] == raw[1..] + [QUOTE];
      if raw[0] == BACKSLASH {
        AtTail(body, i + 1, raw[1..] + [QUOTE]);
        assert (raw[1..] + [QUOTE])[1..] == raw[2..] + [QUOTE];
        RawScanned(body, i + 2, raw[2..]);
        assert InString(body, i, false) == InString(body, i + 1, true) == InString(body, i + 2, false);
      } else {
        RawScanned(body, i + 1, raw[1..]);
      }
    }
  }

  lemma StringScanned(body: seq<byte>, i: nat, raw: seq<byte>)
    requires At(body, i, Quoted(raw)) && RawOk(raw)
    ensures StringEnd(body, i) == Some(i + |raw| + 2)
    ensures body[i + 1..i + |raw| + 1] == raw
  {
    hide At, InString, RawOk;
    AtSplit(body, i, [QUOTE], raw + [QUOTE]);
    AtByte(body, i, [QUOTE], 0);
    RawScanned(body, i + 1, raw);
    AtSplit(body, i + 1, raw, [QUOTE]);
    AtSlice(body, i + 1, raw);
  }

  lemma {:induction false} AtomScanned(body: seq<byte>, i: nat, text: seq<byte>)
    requires At(body, i, text)
    requires forall k | 0 <= k < |text| :: !IsDelimiter(text[k])
    ensures AtomEnd(body, i) == AtomEnd(body, i + |text|)
    decreases |text|
  {
    if text != [] {
      AtTail(body, i, text);
      AtomScanned(body, i + 1, text[1..]);
    }
  }

  lemma {:induction false} PlainPassed(body: seq<byte>, i: nat, s: seq<byte>, open: byte, close: byte, depth: int)
    requires At(body, i, s) && AllPlain(s)
    requires !IsPlain(open) && !IsPlain(close)
    ensures Composite(body, i, open, close, depth) == Composite(body, i + |s|, open, close, depth)
    decreases |s|
  {
    if s != [] {
      AtTail(body, i, s);
      assert IsPlain(s[0]);
      PlainPassed(body, i + 1, s[1..], open, close, depth);
    }
  }

  lemma StringPassed(body: seq<byte>, i: nat, raw: seq<byte>, open: byte, close: byte, depth: int)
    requires At(body, i, Quoted(raw)) && RawOk(raw)
    ensures Composite(body, i, open, close, depth) == Composite(body, i + |raw| + 2, open, close, depth)
  {
    StringScanned(body, i, raw);
  }

  // ---------- brackets: a nested value leaves the depth as it was ----------

  predicate Brackets(open: byte, close: byte) {
    (open == LBRACE && close == RBRACE) || (open == LBRACKET && close == RBRACKET)
  }

  /** Inside a composite, a printed value is passed over without a change of depth. */
  lemma {:induction false} ValuePassed(body: seq<byte>, i: nat, v: Json, open: byte, close: byte, depth: int)
    requires WellFormed(v) && At(body, i, Print(v)) && Brackets(open, close) && depth >= 1
    ensures Composite(body, i, open, close, depth) == Composite(body, i + |Print(v)|, open, close, depth)
    decreases v, 2
  {
    hide Composite, At;
    match v
    case Atom(text) => PlainPassed(body, i, text, open, close, depth);
    case Str(raw) => StringPassed(body, i, raw, open, close, depth);
    case Arr(lead, items) =>
      if open == LBRACKET {
        BracketsPassed(body, i, v, open, close, depth);
      } else {
        CompositeScanned(body, i, v);
        NestedPassed(body, i, v, open, close, depth);
      }
    case Obj(lead, members) =>
      if open == LBRACE {
        BracketsPassed(body, i, v, open, close, depth);
      } else {
        CompositeScanned(body, i, v);
        NestedPassed(body, i, v, open, close, depth);
      }
  }

  function Opener(v: Json): byte { if v.Obj? then LBRACE else LBRACKET }

  function Closer(v: Json): byte { if v.Obj? then RBRACE else RBRACKET }

  function Inner(v: Json): seq<byte>
    requires v.Obj? || v.Arr?
  {
    v.lead + (if v.Obj? then PrintMembers(v.members) else PrintItems(v.items))
  }

  lemma CompositeAt(body: seq<byte>, i: nat, v: Json)
    requires (v.Obj? || v.Arr?) && At(body, i, Print(v))
    ensures |Print(v)| == |Inner(v)| + 2
    ensures i < |body| && body[i] == Opener(v)
    ensures At(body, i + 1, Inner(v))
    ensures var end := i + |Inner(v)| + 1; end < |body| && body[end] == Closer(v)
  {
    hide At;
    AtSplit(body, i, [Opener(v)], Inner(v) + [Closer(v)]);
    AtSplit(body, i + 1, Inner(v), [Closer(v)]);
    AtByte(body, i, [Opener(v)], 0);
    AtByte(body, i + 1 + |Inner(v)|, [Closer(v)], 0);
  }

  /** A composite nested in one of the other kind is skipped by the inner call. */
  lemma NestedPassed(body: seq<byte>, i: nat, v: Json, open: byte, close: byte, depth: int)
    requires (v.Obj? || v.Arr?) && At(body, i, Print(v)) && Brackets(open, close) && open != Opener(v)
    requires Composite(body, i, Opener(v), Closer(v), 0) == Some(i + |Print(v)|)
    ensures Composite(body, i, open, close, depth) == Composite(body, i + |Print(v)|, open, close, depth)
  {
    CompositeAt(body, i, v);
  }

  lemma OpenStep(body: seq<byte>, i: nat, open: byte, close: byte, depth: int)
    requires i < |body| && body[i] == open && Brackets(open, close)
    ensures Composite(body, i, open, close, depth) == Composite(body, i + 1, open, close, depth + 1)
  {}

  lemma CloseStep(body: seq<byte>, i: nat, open: byte, close: byte, depth: int)
    requires i < |body| && body[i] == close && Brackets(open, close)
    ensures Composite(body, i, open, close, depth)
         == if depth == 1 then Some(i + 1) else Composite(body, i + 1, open, close, depth - 1)
  {}

  lemma {:induction false} BracketsPassed(body: seq<byte>, i: nat, v: Json, open: byte, close: byte, depth: int)
    requires (v.Obj? || v.Arr?) && WellFormed(v) && At(body, i, Print(v))
    requires open == Opener(v) && close == Closer(v) && depth >= 0
    ensures Composite(body, i, open, close, depth)
         == if depth == 0 then Some(i + |Print(v)|) else Composite(body, i + |Print(v)|, open, close, depth)
    decreases v, 0
  {
    hide Composite;
    CompositeAt(body, i, v);
    OpenStep(body, i, open, close, depth);
    InnerPassed(body, i + 1, v, open, close, depth + 1);
    CloseStep(body, i + 1 + |Inner(v)|, open, close, depth + 1);
  }

  /** `skipJSONComposite` started on a printed array or object ends exactly behind it. */
  lemma CompositeScanned(body: seq<byte>, i: nat, v: Json)
    requires (v.Obj? || v.Arr?) && WellFormed(v) && At(body, i, Print(v))
    ensures Composite(body, i, Opener(v), Closer(v), 0) == Some(i + |Print(v)|)
    decreases v, 1
  {
    BracketsPassed(body, i, v, Opener(v), Closer(v), 0);
  }

  lemma WsIsPlain(ws: seq<byte>)
    requires AllWs(ws)
    ensures AllPlain(ws)
  {}

  lemma {:induction false} InnerPassed(body: seq<byte>, i: nat, v: Json, open: byte, close: byte, depth: int)
    requires (v.Obj? || v.Arr?) && WellFormed(v) && At(body, i, Inner(v))
    requires Brackets(open, close) && depth >= 1
    ensures Composite(body, i, open, close, depth) == Composite(body, i + |Inner(v)|, open, close, depth)
    decreases v, -1
  {
    hide Composite, At, PrintMembers, PrintItems;
    var text := if v.Obj? then PrintMembers(v.members) else PrintItems(v.items);
    AtSplit(body, i, v.lead, text);
    WsIsPlain(v.lead);
    PlainPassed(body, i, v.lead, open, close, depth);
    if v.Obj? {
      MembersPassed(body, i + |v.lead|, v.members, open, close, depth);
    } else {
      ItemsPassed(body, i + |v.lead|, v.items, open, close, depth);
    }
  }

  /** Where the parts of a printed item sit. */
  lemma ItemAt(body: seq<byte>, i: nat, items: Items)
    requires items.Item? && At(body, i, PrintItems(items))
    ensures var v := i + |items.before|; var a := v + |Print(items.value)|; var e := a + |items.after|;
            && At(body, i, items.before) && At(body, v, Print(items.value)) && At(body, a, items.after)
            && (items.rest.NoItems? ==> |PrintItems(items)| == e - i)
            && (items.rest.Item? ==>
                && At(body, e, [COMMA]) && e < |body| && body[e] == COMMA && At(body, e + 1, PrintItems(items.rest))
                && |PrintItems(items)| == e + 1 - i + |PrintItems(items.rest)|)
  {
    hide At, ItemText, Print;
    ItemTextAt(body, i, items);
  }

  lemma FourAt(body: seq<byte>, i: nat, a: seq<byte>, b: seq<byte>, c: seq<byte>, d: seq<byte>)
    requires At(body, i, a + (b + (c + d)))
    ensures At(body, i, a) && At(body, i + |a|, b) && At(body, i + |a| + |b|, c) && At(body, i + |a| + |b| + |c|, d)
  {
    hide At;
    AtSplit(body, i, a, b + (c + d));
    AtSplit(body, i + |a|, b, c + d);
    AtSplit(body, i + |a| + |b|, c, d);
  }

  lemma CommaAt(body: seq<byte>, i: nat, rest: seq<byte>)
    requires At(body, i, [COMMA] + rest)
    ensures At(body, i, [COMMA]) && i < |body| && body[i] == COMMA && At(body, i + 1, rest)
  {
    hide At;
    AtSplit(body, i, [COMMA], rest);
    AtByte(body, i, [COMMA], 0);
  }

  lemma ItemTextAt(body: seq<byte>, i: nat, items: Items)
    requires items.Item? && At(body, i, ItemText(items))
    ensures var v := i + |items.before|; var a := v + |Print(items.value)|; var e := a + |items.after|;
            && At(body, i, items.before) && At(body, v, Print(items.value)) && At(body, a, items.after)
            && (items.rest.NoItems? ==> |ItemText(items)| == e - i)
            && (items.rest.Item? ==>
                && At(body, e, [COMMA]) && e < |body| && body[e] == COMMA && At(body, e + 1, PrintItems(items.rest))
                && |ItemText(items)| == e + 1 - i + |PrintItems(items.rest)|)
  {
    hide At, Print, PrintItems;
    var more := if items.rest.NoItems? then [] else [COMMA] + PrintItems(items.rest);
    assert ItemText(items) == items.before + (Print(items.value) + (items.after + more));
    hide ItemText;
    FourAt(body, i, items.before, Print(items.value), items.after, more);
    if items.rest.Item? { CommaAt(body, i + |items.before| + |Print(items.value)| + |items.after|, PrintItems(items.rest)); }
  }

  lemma {:induction false} ItemsPassed(body: seq<byte>, i: nat, items: Items, open: byte, close: byte, depth: int)
    requires ItemsOk(items) && At(body, i, PrintItems(items)) && Brackets(open, close) && depth >= 1
    ensures Composite(body, i, open, close, depth) == Composite(body, i + |PrintItems(items)|, open, close, depth)
    decreases items
  {
    hide Composite, At, Print, WellFormed;
    if items.Item? {
      ItemAt(body, i, items);
      var p := Print(items.value);
      var v := i + |items.before|;
      WsIsPlain(items.before);
      WsIsPlain(items.after);
      PlainPassed(body, i, items.before, open, close, depth);
      ValuePassed(body, v, items.value, open, close, depth);
      PlainPassed(body, v + |p|, items.after, open, close, depth);
      if items.rest.Item? {
        var c := v + |p| + |items.after|;
        PlainPassed(body, c, [COMMA], open, close, depth);
        ItemsPassed(body, c + 1, items.rest, open, close, depth);
      }
    }
  }

  /** Where the parts of a printed member sit. */
  lemma KeyAt(body: seq<byte>, i: nat, members: Members)
    requires members.Field? && At(body, i, PrintMembers(members))
    ensures var k := i + |members.before|; var c := k + |members.key| + 2 + |members.afterKey|;
            && At(body, i, members.before) && At(body, k, Quoted(members.key))
            && At(body, k + |members.key| + 2, members.afterKey)
            && At(body, c, [COLON]) && c < |body| && body[c] == COLON && At(body, c + 1, AfterColon(members))
            && |PrintMembers(members)| == c + 1 - i + |AfterColon(members)|
  {
    hide At, AfterColon;
    var c := [COLON] + AfterColon(members);
    var a := members.afterKey + c;
    var k := Quoted(members.key) + a;
    AtSplit(body, i, members.before, k);
    var at := i + |members.before|;
    AtSplit(body, at, Quoted(members.key), a);
    at := at + |members.key| + 2;
    AtSplit(body, at, members.afterKey, c);
    at := at + |members.afterKey|;
    AtSplit(body, at, [COLON], AfterColon(members));
    AtByte(body, at, [COLON], 0);
  }

  lemma ValueAt(body: seq<byte>, i: nat, members: Members)
    requires members.Field? && At(body, i, AfterColon(members))
    ensures var v := i + |members.beforeValue|; var a := v + |Print(members.value)|; var e := a + |members.after|;
            && At(body, i, members.beforeValue) && At(body, v, Print(members.value)) && At(body, a, members.after)
            && (members.rest.NoMembers? ==> |AfterColon(members)| == e - i)
            && (members.rest.Field? ==>
                && At(body, e, [COMMA]) && e < |body| && body[e] == COMMA && At(body, e + 1, PrintMembers(members.rest))
                && |AfterColon(members)| == e + 1 - i + |PrintMembers(members.rest)|)
  {
    hide At, Print, PrintMembers;
    var more := if members.rest.NoMembers? then [] else [COMMA] + PrintMembers(members.rest);
    assert AfterColon(members) == members.beforeValue + (Print(members.value) + (members.after + more));
    hide AfterColon;
    FourAt(body, i, members.beforeValue, Print(members.value), members.after, more);
    if members.rest.Field? {
      CommaAt(body, i + |members.beforeValue| + |Print(members.value)| + |members.after|, PrintMembers(members.rest));
    }
  }

  lemma {:induction false} MembersPassed(body: seq<byte>, i: nat, members: Members, open: byte, close: byte, depth: int)
    requires MembersOk(members) && At(body, i, PrintMembers(members)) && Brackets(open, close) && depth >= 1
    ensures Composite(body, i, open, close, depth) == Composite(body, i + |PrintMembers(members)|, open, close, depth)
    decreases members
  {
    hide Composite, At, Print, AfterColon, WellFormed, RawOk;
    if members.Field? {
      KeyAt(body, i, members);
      var k := i + |members.before|;
      var c := k + |members.key| + 2 + |members.afterKey|;
      WsIsPlain(members.before);
      PlainPassed(body, i, members.before, open, close, depth);
      StringPassed(body, k, members.key, open, close, depth);
      WsIsPlain(members.afterKey);
      PlainPassed(body, k + |members.key| + 2, members.afterKey, open, close, depth);
      PlainPassed(body, c, [COLON], open, close, depth);
      AfterColonPassed(body, c + 1, members, open, close, depth);
    }
  }

  lemma {:induction false} AfterColonPassed(body: seq<byte>, i: nat, members: Members, open: byte, close: byte, depth: int)
    requires members.Field? && MembersOk(members) && At(body, i, AfterColon(members))
    requires Brackets(open, close) && depth >= 1
    ensures Composite(body, i, open, close, depth) == Composite(body, i + |AfterColon(members)|, open, close, depth)
    decreases members, 0
  {
    hide Composite, At, Print, PrintMembers, AfterColon, WellFormed, RawOk;
    ValueAt(body, i, members);
    var v := i + |members.beforeValue|;
    var a := v + |Print(members.value)|;
    var e := a + |members.after|;
    WsIsPlain(members.beforeValue);
    PlainPassed(body, i, members.beforeValue, open, close, depth);
    ValuePassed(body, v, members.value, open, close, depth);
    WsIsPlain(members.after);
    PlainPassed(body, a, members.after, open, close, depth);
    if members.rest.Field? {
      PlainPassed(body, e, [COMMA], open, close, depth);
      MembersPassed(body, e + 1, members.rest, open, close, depth);
    }
  }

  // ---------- whole values ----------

  /** What may follow a printed value for the scanner to see where it ends. */
  predicate Ends(body: seq<byte>, end: nat) { end >= |body| || IsDelimiter(body[end]) }

  lemma FirstByte(v: Json)
    requires WellFormed(v)
    ensures Print(v) != [] && !IsWs(Print(v)[0])
    ensures v.Atom? ==> Print(v)[0] !in {QUOTE, LBRACE, LBRACKET}
  {
    if v.Atom? { assert IsPlain(v.text[0]) && !IsDelimiter(v.text[0]); }
  }

  /**
   The scanner inverts the printer: behind any white space, a printed value is
   skipped to exactly its end, whatever precedes and follows it.
   */
  lemma SkipValueInvertsPrint(body: seq<byte>, i: nat, ws: seq<byte>, v: Json)
    requires WellFormed(v) && AllWs(ws) && At(body, i, ws + Print(v))
    requires v.Atom? ==> Ends(body, i + |ws + Print(v)|)
    ensures SkipValue(body, i) == Some(i + |ws + Print(v)|)
  {
    hide Composite, At;
    AtSplit(body, i, ws, Print(v));
    WsSkipped(body, i, ws);
    var j := i + |ws|;
    FirstByte(v);
    AtByte(body, j, Print(v), 0);
    assert SkipWs(body, i) == j;
    match v
    case Atom(text) => AtomScanned(body, j, text);
    case Str(raw) => StringScanned(body, j, raw);
    case Arr(_, _) => CompositeScanned(body, j, v);
    case Obj(_, _) => CompositeScanned(body, j, v);
  }

  // ---------- looking up a member ----------

  /** The value of the first member whose raw key is `key`. */
  function Lookup(members: Members, key: seq<byte>): Option<Json> {
    match members
    case NoMembers => None
    case Field(_, k, _, _, value, _, rest) => if k == key then Some(value) else Lookup(rest, key)
  }

  /** Where the members, printed from `i` on, have the value of the first one whose raw key is `key`. */
  function ValueStart(members: Members, i: nat, key: seq<byte>): (r: Option<nat>)
    ensures r.Some? <==> Lookup(members, key).Some?
  {
    match members
    case NoMembers => None
    case Field(before, k, afterKey, beforeValue, value, after, rest) =>
      var v := i + |before| + |k| + 3 + |afterKey| + |beforeValue|;
      if k == key then Some(v) else ValueStart(rest, v + |Print(value)| + |after| + 1, key)
  }

  lemma MemberFound(body: seq<byte>, i: nat, members: Members)
    requires members.Field? && MembersOk(members) && At(body, i, PrintMembers(members))
    ensures var k := i + |members.before|; var v := k + |members.key| + 3 + |members.afterKey| + |members.beforeValue|;
            MemberAt(body, i) == Some(Member(k, k + |members.key| + 2, v))
            && body[k + 1..k + |members.key| + 1] == members.key
  {
    hide At, Print, PrintMembers, WellFormed, RawOk, StringEnd, AfterColon, SkipWs;
    KeyAt(body, i, members);
    var k := i + |members.before|;
    AtByte(body, k, Quoted(members.key), 0);
    WsSkippedTo(body, i, members.before);
    StringScanned(body, k, members.key);
    var c := k + |members.key| + 2 + |members.afterKey|;
    WsSkippedTo(body, k + |members.key| + 2, members.afterKey);
    ValueAt(body, c + 1, members);
    var v := c + 1 + |members.beforeValue|;
    FirstByte(members.value);
    AtByte(body, v, Print(members.value), 0);
    WsSkippedTo(body, c + 1, members.beforeValue);
  }

  lemma NextFound(body: seq<byte>, i: nat, members: Members)
    requires members.Field? && MembersOk(members) && At(body, i, PrintMembers(members))
    requires members.rest.NoMembers? ==> ClosedAt(body, i + |PrintMembers(members)|)
    ensures MemberAt(body, i).Some?
    ensures At(body, MemberAt(body, i).value.value, Print(members.value))
    ensures members.rest.NoMembers? ==> NextMember(body, MemberAt(body, i).value.value) == None
    ensures members.rest.Field? ==>
              var next := i + |PrintMembers(members)| - |PrintMembers(members.rest)|;
              next == MemberAt(body, i).value.value + |Print(members.value)| + |members.after| + 1
              && NextMember(body, MemberAt(body, i).value.value) == Some(next)
              && At(body, next, PrintMembers(members.rest))
  {
    hide SkipValue, SkipWs, MemberAt, At, Print, PrintMembers, WellFormed, RawOk, StringEnd, AfterColon;
    MemberFound(body, i, members);
    KeyAt(body, i, members);
    var v := MemberAt(body, i).value.value;
    ValueAt(body, v - |members.beforeValue|, members);
    var p := Print(members.value);
    var a := v + |p|;
    var e := a + |members.after|;
    WsSkippedTo(body, a, members.after);
    if members.after != [] { AtByte(body, a, members.after, 0); }
    assert [] + p == p;
    SkipValueInvertsPrint(body, v, [], members.value);
  }

  /** An object's closing brace follows its last member. */
  predicate ClosedAt(body: seq<byte>, e: nat) { e < |body| && body[e] == RBRACE }

  lemma NoMemberFound(body: seq<byte>, i: nat, key: seq<byte>)
    requires ClosedAt(body, i)
    ensures FindMember(body, i, key) == None
  {
    assert SkipWs(body, i) == i;
  }

  lemma {:induction false} FindMemberInvertsPrint(body: seq<byte>, i: nat, members: Members, key: seq<byte>)
    requires MembersOk(members) && At(body, i, PrintMembers(members))
    requires ClosedAt(body, i + |PrintMembers(members)|)
    ensures FindMember(body, i, key) == ValueStart(members, i, key)
    ensures FindMember(body, i, key).Some? ==>
              At(body, FindMember(body, i, key).value, Print(Lookup(members, key).value))
    decreases members
  {
    hide At, Print, WellFormed, RawOk, AfterColon, NextMember, FindMember, MemberAt;
    if members.NoMembers? {
      NoMemberFound(body, i, key);
    } else {
      hide PrintMembers;
      MemberFound(body, i, members);
      NextFound(body, i, members);
      FindMemberStep(body, i, key);
      if members.key != key && members.rest.Field? {
        FindMemberInvertsPrint(body, i + |PrintMembers(members)| - |PrintMembers(members.rest)|, members.rest, key);
      }
    }
  }

  /**
   On a printed object, followed by anything, a lookup returns exactly where the value
   of the first top-level member with that raw key starts, wherever else the same key
   or text may occur, and fails exactly when there is none.
   */
  lemma FindTopInvertsPrint(ws: seq<byte>, v: Json, after: seq<byte>, key: seq<byte>)
    requires AllWs(ws) && v.Obj? && WellFormed(v)
    ensures var found := FindTop(ws + Print(v) + after, key);
            && found == ValueStart(v.members, |ws| + 1 + |v.lead|, key)
            && (found.Some? <==> Lookup(v.members, key).Some?)
            && (found.Some? ==> At(ws + Print(v) + after, found.value, Print(Lookup(v.members, key).value)))
  {
    hide FindMember, At, Print, PrintMembers, WellFormed, MembersOk, Lookup, SkipWs;
    var body := ws + Print(v) + after;
    BodyAt(ws, Print(v), after);
    ObjOk(v);
    CompositeAt(body, |ws|, v);
    WsSkippedTo(body, 0, ws);
    var i := |ws| + 1;
    AtSplit(body, i, v.lead, PrintMembers(v.members));
    LeadSkipped(body, i, v.lead, key);
    FindMemberInvertsPrint(body, i + |v.lead|, v.members, key);
  }

  lemma BodyAt(a: seq<byte>, b: seq<byte>, c: seq<byte>)
    ensures At(a + b + c, 0, a) && At(a + b + c, |a|, b)
  {
    assert (a + b + c)[0..|a|] == a && (a + b + c)[|a|..|a| + |b|] == b;
  }

  lemma ObjOk(v: Json)
    requires v.Obj? && WellFormed(v)
    ensures AllWs(v.lead) && MembersOk(v.members)
  {}

  lemma LeadSkipped(body: seq<byte>, i: nat, ws: seq<byte>, key: seq<byte>)
    requires At(body, i, ws) && AllWs(ws)
    ensures FindMember(body, i, key) == FindMember(body, i + |ws|, key)
  {
    WsSkipped(body, i, ws);
    assert MemberAt(body, i) == MemberAt(body, i + |ws|);
    FindMemberStep(body, i, key);
    FindMemberStep(body, i + |ws|, key);
  }

  // ---------- strings and arrays read back ----------

  /** The two-byte escapes of RFC 8259, section 7, by the byte behind the backslash; `\u` escapes are not among them. */
  predicate EscapeOf(letter: byte, c: byte) {
    || (letter == c && (c == QUOTE || c == BACKSLASH || c == SLASH))
    || (letter as char == 'b' && c == 8) || (letter as char == 'f' && c == 12) || (letter as char == 'n' && c == LF)
    || (letter as char == 'r' && c == CR) || (letter as char == 't' && c == TAB)
  }

  /** One way to write a byte: by itself, or as an escape. */
  predicate Spelling(piece: seq<byte>, c: byte) {
    || (piece == [c] && c != QUOTE && c != BACKSLASH)
    || (|piece| == 2 && piece[0] == BACKSLASH && EscapeOf(piece[1], c))
  }

  predicate Spells(pieces: seq<seq<byte>>, s: seq<byte>) {
    |pieces| == |s| && forall k | 0 <= k < |s| :: Spelling(pieces[k], s[k])
  }

  lemma EscapesExactly(letter: byte, c: byte)
    ensures EscapeOf(letter, c) <==> Unescaped(letter) == Some(c)
  {}

  lemma RawPrefix(piece: seq<byte>, c: byte, raw: seq<byte>)
    requires Spelling(piece, c)
    ensures RawOk(piece + raw) <==> RawOk(raw)
    ensures Decode(piece + raw) == Prepend([c], Decode(raw))
  {
    if |piece| == 2 {
      EscapesExactly(piece[1], c);
      assert (piece + raw)[2..] == raw;
    } else {
      assert (piece + raw)[1..] == raw;
    }
  }

  /** However each byte is written, with an escape or without, the text is read back. */
  lemma {:induction false} SpellingDecodes(pieces: seq<seq<byte>>, s: seq<byte>)
    requires Spells(pieces, s)
    ensures RawOk(Flatten(pieces)) && Decode(Flatten(pieces)) == Some(s)
  {
    hide Spelling;
    if s != [] {
      SpellingDecodes(pieces[1..], s[1..]);
      RawPrefix(pieces[0], s[0], Flatten(pieces[1..]));
      assert [s[0]] + s[1..] == s;
    }
  }

  /** And nothing else is read: what is decoded was written so. */
  lemma {:induction false} OnlySpellingsDecode(raw: seq<byte>) returns (pieces: seq<seq<byte>>)
    requires RawOk(raw) && Decode(raw).Some?
    ensures Spells(pieces, Decode(raw).value) && Flatten(pieces) == raw
    decreases |raw|
  {
    if raw == [] {
      pieces := [];
    } else {
      var n := if raw[0] == BACKSLASH then 2 else 1;
      if n == 2 { EscapesExactly(raw[1], Unescaped(raw[1]).value); }
      var rest := OnlySpellingsDecode(raw[n..]);
      pieces := [raw[..n]] + rest;
      assert pieces[1..] == rest && raw[..n] + raw[n..] == raw;
      FirstSpelled(raw, n, rest);
    }
  }

  lemma FirstSpelled(raw: seq<byte>, n: nat, rest: seq<seq<byte>>)
    requires raw != [] && n == (if raw[0] == BACKSLASH then 2 else 1) && n <= |raw| && RawOk(raw) && Decode(raw).Some?
    requires Decode(raw[n..]).Some? && Spells(rest, Decode(raw[n..]).value)
    ensures Spells([raw[..n]] + rest, Decode(raw).value)
  {
    if n == 2 { EscapesExactly(raw[1], Unescaped(raw[1]).value); }
    hide RawOk, EscapeOf;
    var all := [raw[..n]] + rest;
    assert Decode(raw).value[1..] == Decode(raw[n..]).value;
    forall k | 0 < k < |all| ensures Spelling(all[k], Decode(raw).value[k]) { assert all[k] == rest[k - 1]; }
  }

  /** A backslash before anything else, a `u` above all, or before the end, makes the whole text unreadable. */
  lemma {:induction false} OtherEscapesRefused(pieces: seq<seq<byte>>, s: seq<byte>, rest: seq<byte>)
    requires Spells(pieces, s) && (rest == [] || forall c :: !EscapeOf(rest[0], c))
    ensures Decode(Flatten(pieces) + [BACKSLASH] + rest) == None
  {
    hide Spelling;
    if s == [] {
      var raw := Flatten(pieces) + [BACKSLASH] + rest;
      assert raw == [BACKSLASH] + rest;
      if rest != [] && Unescaped(rest[0]).Some? { EscapesExactly(rest[0], Unescaped(rest[0]).value); }
    } else {
      OtherEscapesRefused(pieces[1..], s[1..], rest);
      RawPrefix(pieces[0], s[0], Flatten(pieces[1..]) + [BACKSLASH] + rest);
      assert Flatten(pieces) + [BACKSLASH] + rest == pieces[0] + (Flatten(pieces[1..]) + [BACKSLASH] + rest);
    }
  }

  /** A string member, its bytes written in any of these ways, is returned as the text it spells. */
  lemma TopStringInvertsSpelling(ws: seq<byte>, v: Json, after: seq<byte>, key: seq<byte>, pieces: seq<seq<byte>>, s: seq<byte>)
    requires AllWs(ws) && v.Obj? && WellFormed(v) && Spells(pieces, s)
    requires Lookup(v.members, key) == Some(Str(Flatten(pieces)))
    ensures TopString(ws + Print(v) + after, key) == Some(s)
  {
    hide FindTop, At, Lookup, PrintMembers, Decode, Flatten, Spells, RawOk, StringEnd;
    var body := ws + Print(v) + after;
    FindTopInvertsPrint(ws, v, after, key);
    SpellingDecodes(pieces, s);
    StringScanned(body, FindTop(body, key).value, Flatten(pieces));
  }

  /** A member that is no string is not read as one. */
  lemma OnlyStringsAreRead(ws: seq<byte>, v: Json, after: seq<byte>, key: seq<byte>)
    requires AllWs(ws) && v.Obj? && WellFormed(v)
    requires Lookup(v.members, key).None? || !Lookup(v.members, key).value.Str?
    ensures TopString(ws + Print(v) + after, key) == None
  {
    hide FindTop, Lookup, PrintMembers, Decode, AtomOk, ItemsOk, RawOk;
    var body := ws + Print(v) + after;
    FindTopInvertsPrint(ws, v, after, key);
    if Lookup(v.members, key).Some? {
      var value := Lookup(v.members, key).value;
      LookupWellFormed(v.members, key);
      FirstByte(value);
      AtByte(body, FindTop(body, key).value, Print(value), 0);
    }
  }

  /** Only an object has members. */
  lemma OnlyObjectsAreSearched(ws: seq<byte>, v: Json, after: seq<byte>, key: seq<byte>)
    requires AllWs(ws) && !v.Obj? && WellFormed(v)
    ensures FindTop(ws + Print(v) + after, key) == None
  {
    hide FindMember;
    var body := ws + Print(v) + after;
    FirstByte(v);
    assert At(body, 0, ws) && At(body, |ws|, Print(v));
    AtByte(body, |ws|, Print(v), 0);
    WsSkippedTo(body, 0, ws);
  }

  function ItemCount(items: Items): nat {
    match items
    case NoItems => 0
    case Item(_, _, _, rest) => 1 + ItemCount(rest)
  }

  /** What the count loop sees of one printed item. */
  lemma ItemSkipped(body: seq<byte>, i: nat, items: Items, v: nat, a: nat, e: nat)
    requires items.Item? && ItemsOk(items) && At(body, i, PrintItems(items))
    requires v == i + |items.before| && a == v + |Print(items.value)| && e == a + |items.after|
    requires e < |body| && (body[e] == COMMA || body[e] == RBRACKET)
    ensures SkipWs(body, i) == v < |body| && body[v] != RBRACKET
    ensures SkipValue(body, v) == Some(a) && SkipWs(body, a) == e
  {
    hide SkipValue, At, Print, WellFormed, PrintItems, SkipWs;
    ItemAt(body, i, items);
    var p := Print(items.value);
    ValueIsNotClose(items.value);
    FirstByte(items.value);
    AtByte(body, v, p, 0);
    WsSkippedTo(body, i, items.before);
    WsSkippedTo(body, a, items.after);
    if items.after != [] { AtByte(body, a, items.after, 0); }
    ConcatEmpty(p);
    SkipValueInvertsPrint(body, v, [], items.value);
  }

  lemma {:induction false} ItemsCounted(body: seq<byte>, i: nat, items: Items, count: nat)
    requires items.Item? && ItemsOk(items) && At(body, i, PrintItems(items))
    requires var e := i + |PrintItems(items)|; e < |body| && body[e] == RBRACKET
    ensures CountItems(body, i, count) == Some(count + ItemCount(items))
    decreases items
  {
    hide SkipValue, At, Print, WellFormed, PrintItems, CountItems;
    ItemAt(body, i, items);
    var v := i + |items.before|;
    var a := v + |Print(items.value)|;
    var e := a + |items.after|;
    ItemSkipped(body, i, items, v, a, e);
    CountStep(body, i, count, v, a, e);
    if items.rest.Item? { ItemsCounted(body, e + 1, items.rest, count + 1); }
  }

  lemma NothingCounted(body: seq<byte>, i: nat)
    requires i < |body| && body[i] == RBRACKET
    ensures CountItems(body, i, 0) == Some(0)
  {
    assert SkipWs(body, i) == i;
  }

  lemma ValueIsNotClose(v: Json)
    requires WellFormed(v)
    ensures Print(v) != [] && Print(v)[0] != RBRACKET
  {
    FirstByte(v);
    if v.Atom? { assert IsPlain(v.text[0]); }
  }

  lemma LeadCounted(body: seq<byte>, i: nat, ws: seq<byte>)
    requires At(body, i, ws) && AllWs(ws)
    ensures CountItems(body, i, 0) == CountItems(body, i + |ws|, 0)
  {
    hide SkipValue;
    WsSkipped(body, i, ws);
  }

  /** The length of a printed array member is the number of its items. */
  lemma TopArrayLenCountsItems(ws: seq<byte>, v: Json, after: seq<byte>, key: seq<byte>)
    requires AllWs(ws) && v.Obj? && WellFormed(v)
    requires Lookup(v.members, key).Some? && Lookup(v.members, key).value.Arr?
    ensures TopArrayLen(ws + Print(v) + after, key) == Some(ItemCount(Lookup(v.members, key).value.items))
  {
    hide FindTop, CountItems, At, Lookup, MembersOk, ItemsOk;
    var body := ws + Print(v) + after;
    FindTopInvertsPrint(ws, v, after, key);
    LookupWellFormed(v.members, key);
    var start := FindTop(body, key).value;
    var arr := Lookup(v.members, key).value;
    CompositeAt(body, start, arr);
    AtSplit(body, start + 1, arr.lead, PrintItems(arr.items));
    assert SkipWs(body, start) == start;
    LeadCounted(body, start + 1, arr.lead);
    if arr.items.NoItems? {
      NothingCounted(body, start + 1 + |arr.lead|);
    } else {
      ItemsCounted(body, start + 1 + |arr.lead|, arr.items, 0);
    }
  }

  lemma {:induction false} LookupWellFormed(members: Members, key: seq<byte>)
    requires MembersOk(members) && Lookup(members, key).Some?
    ensures WellFormed(Lookup(members, key).value)
    decreases members
  {
    if members.key != key { LookupWellFormed(members.rest, key); }
  }
}
