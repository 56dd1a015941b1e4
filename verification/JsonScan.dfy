/**
 The hand-written JSON scanner of the proxy: it finds a top-level member of a
 body that may be cut off at any byte.  The functions say what each routine
 computes; the methods are the routines, with the loops of the source.
 */
module JsonScan {
  import opened Bytes

  predicate IsWs(b: byte) { b == SPACE || b == LF || b == CR || b == TAB }

  /** A byte that ends a number, `true`, `false` or `null`. */
  predicate IsDelimiter(b: byte) { b == COMMA || b == RBRACE || b == RBRACKET || IsWs(b) }

  // ---------- what the scanner computes ----------

  function SkipWs(body: seq<byte>, i: nat): (j: nat)
    ensures i <= j && (i <= |body| ==> j <= |body|)
    decreases |body| - i
  {
    if i < |body| && IsWs(body[i]) then SkipWs(body, i + 1) else i
  }

  function InString(body: seq<byte>, i: nat, escaped: bool): (r: Option<nat>)
    ensures r.Some? ==> i < r.value <= |body|
    decreases |body| - i
  {
    if i >= |body| then None
    else if escaped then InString(body, i + 1, false)
    else if body[i] == BACKSLASH then InString(body, i + 1, true)
    else if body[i] == QUOTE then Some(i + 1)
    else InString(body, i + 1, false)
  }

  function StringEnd(body: seq<byte>, i: nat): (r: Option<nat>)
    ensures r.Some? ==> i + 1 < r.value <= |body|
  {
    if i >= |body| || body[i] != QUOTE then None else InString(body, i + 1, false)
  }

  function Composite(body: seq<byte>, i: nat, open: byte, close: byte, depth: int): (r: Option<nat>)
    ensures r.Some? ==> i < r.value <= |body|
    decreases |body| - i, if i < |body| && body[i] == open then 0 else 1
  {
    if i >= |body| then None
    else if body[i] == QUOTE then
      match StringEnd(body, i)
      case None => None
      case Some(end) => Composite(body, end, open, close, depth)
    else if body[i] == open then Composite(body, i + 1, open, close, depth + 1)
    else if body[i] == close then
      if depth - 1 == 0 then Some(i + 1) else Composite(body, i + 1, open, close, depth - 1)
    else if body[i] == LBRACE then
      match Composite(body, i, LBRACE, RBRACE, 0)
      case None => None
      case Some(end) => Composite(body, end, open, close, depth)
    else if body[i] == LBRACKET then
      match Composite(body, i, LBRACKET, RBRACKET, 0)
      case None => None
      case Some(end) => Composite(body, end, open, close, depth)
    else Composite(body, i + 1, open, close, depth)
  }

  function AtomEnd(body: seq<byte>, i: nat): (j: nat)
    ensures i <= j && (i <= |body| ==> j <= |body|)
    decreases |body| - i
  {
    if i < |body| && !IsDelimiter(body[i]) then AtomEnd(body, i + 1) else i
  }

  function SkipValue(body: seq<byte>, i: nat): (r: Option<nat>)
    ensures r.Some? ==> i <= r.value <= |body|
  {
    var j := SkipWs(body, i);
    if j >= |body| then None
    else if body[j] == QUOTE then StringEnd(body, j)
    else if body[j] == LBRACE then Composite(body, j, LBRACE, RBRACE, 0)
    else if body[j] == LBRACKET then Composite(body, j, LBRACKET, RBRACKET, 0)
    else Some(AtomEnd(body, j))
  }

  /** Where a member's key literal begins and ends and where its value begins. */
  datatype Member = Member(key: nat, keyEnd: nat, value: nat)

  /** The key, colon and value start of the member that begins at or after `i`. */
  function MemberAt(body: seq<byte>, i: nat): (r: Option<Member>)
    ensures r.Some? ==> i <= r.value.key < r.value.keyEnd - 1 && r.value.keyEnd < r.value.value <= |body|
  {
    var k := SkipWs(body, i);
    if k >= |body| || body[k] == RBRACE then None
    else match StringEnd(body, k)
    case None => None
    case Some(keyEnd) =>
      var c := SkipWs(body, keyEnd);
      if c >= |body| || body[c] != COLON then None
      else Some(Member(k, keyEnd, SkipWs(body, c + 1)))
  }

  /** The index behind the comma that follows the value at `v`. */
  function NextMember(body: seq<byte>, v: nat): (r: Option<nat>)
    ensures r.Some? ==> v < r.value <= |body|
  {
    match SkipValue(body, v)
    case None => None
    case Some(next) =>
      var n := SkipWs(body, next);
      if n < |body| && body[n] == COMMA then Some(n + 1) else None
  }

  predicate HasKey(body: seq<byte>, m: Member, key: seq<byte>)
    requires m.key < m.keyEnd - 1 < |body|
  {
    body[m.key + 1..m.keyEnd - 1] == key
  }

  /** The member loop, started at `i` behind the opening brace or a comma. */
  function FindMember(body: seq<byte>, i: nat, key: seq<byte>): (r: Option<nat>)
    ensures r.Some? ==> i < r.value <= |body|
    decreases |body| - i
  {
    match MemberAt(body, i)
    case None => None
    case Some(m) =>
      if HasKey(body, m, key) then Some(m.value)
      else match NextMember(body, m.value)
      case None => None
      case Some(next) => FindMember(body, next, key)
  }

  function FindTop(body: seq<byte>, key: seq<byte>): (r: Option<nat>)
    ensures r.Some? ==> 0 < r.value <= |body|
  {
    var i := SkipWs(body, 0);
    if i >= |body| || body[i] != LBRACE then None else FindMember(body, i + 1, key)
  }

  function Unescaped(b: byte): Option<byte> {
    if b == QUOTE || b == BACKSLASH || b == SLASH then Some(b)
    else if b == 98 then Some(8)
    else if b == 102 then Some(12)
    else if b == 110 then Some(10)
    else if b == 114 then Some(13)
    else if b == 116 then Some(9)
    else None
  }

  function Prepend(out: seq<byte>, rest: Option<seq<byte>>): Option<seq<byte>> {
    match rest
    case None => None
    case Some(tail) => Some(out + tail)
  }

  /** The contents of a string literal with its escapes undone; a `\u` escape is refused. */
  function Decode(raw: seq<byte>): Option<seq<byte>> {
    if raw == [] then Some([])
    else if raw[0] != BACKSLASH then Prepend([raw[0]], Decode(raw[1..]))
    else if |raw| < 2 || Unescaped(raw[1]).None? then None
    else Prepend([Unescaped(raw[1]).value], Decode(raw[2..]))
  }

  function TopString(body: seq<byte>, key: seq<byte>): Option<seq<byte>> {
    match FindTop(body, key)
    case None => None
    case Some(start) =>
      match StringEnd(body, start)
      case None => None
      case Some(end) => Decode(body[start + 1..end - 1])
  }

  function CountItems(body: seq<byte>, i: nat, count: nat): Option<nat>
    decreases |body| - i
  {
    var k := SkipWs(body, i);
    if k >= |body| then None
    else if body[k] == RBRACKET then Some(count)
    else match SkipValue(body, k)
    case None => None
    case Some(next) =>
      var n := SkipWs(body, next);
      if n >= |body| then None
      else if body[n] == COMMA then CountItems(body, n + 1, count + 1)
      else if body[n] == RBRACKET then Some(count + 1)
      else None
  }

  function TopArrayLen(body: seq<byte>, key: seq<byte>): Option<nat> {
    match FindTop(body, key)
    case None => None
    case Some(start) =>
      var i := SkipWs(body, start);
      if i >= |body| || body[i] != LBRACKET then None else CountItems(body, i + 1, 0)
  }

  // ---------- the routines ----------

  method SkipJSONWhitespace(body: seq<byte>, start: nat) returns (i: nat)
    ensures i == SkipWs(body, start)
  {
    i := start;
    while i < |body|
      invariant SkipWs(body, start) == SkipWs(body, i)
    {
      if !IsWs(body[i]) { return; }
      i := i + 1;
    }
  }

  method ScanJSONStringEnd(body: seq<byte>, start: nat) returns (r: Option<nat>)
    ensures r == StringEnd(body, start)
  {
    if start >= |body| || body[start] != QUOTE { return None; }
    var escaped := false;
    var i := start + 1;
    while i < |body|
      invariant InString(body, start + 1, false) == InString(body, i, escaped)
    {
      if escaped {
        escaped := false;
      } else if body[i] == BACKSLASH {
        escaped := true;
      } else if body[i] == QUOTE {
        return Some(i + 1);
      }
      i := i + 1;
    }
    return None;
  }

  method SkipJSONComposite(body: seq<byte>, start: nat, open: byte, close: byte) returns (r: Option<nat>)
    ensures r == Composite(body, start, open, close, 0)
    decreases |body| - start, if start < |body| && body[start] == open then 0 else 1
  {
    var depth := 0;
    var i := start;
    while i < |body|
      invariant start <= i
      invariant Composite(body, start, open, close, 0) == Composite(body, i, open, close, depth)
      decreases |body| - i
    {
      if body[i] == QUOTE {
        var end := ScanJSONStringEnd(body, i);
        if end.None? { return None; }
        i := end.value;
      } else {
        if body[i] == open {
          depth := depth + 1;
        } else if body[i] == close {
          depth := depth - 1;
          if depth == 0 { return Some(i + 1); }
        } else if body[i] == LBRACE {
          var end := SkipJSONComposite(body, i, LBRACE, RBRACE);
          if end.None? { return None; }
          i := end.value;
          continue;
        } else if body[i] == LBRACKET {
          var end := SkipJSONComposite(body, i, LBRACKET, RBRACKET);
          if end.None? { return None; }
          i := end.value;
          continue;
        }
        i := i + 1;
      }
    }
    return None;
  }

  method SkipJSONValueBytes(body: seq<byte>, start: nat) returns (r: Option<nat>)
    ensures r == SkipValue(body, start)
  {
    var i := SkipJSONWhitespace(body, start);
    if i >= |body| { return None; }
    if body[i] == QUOTE {
      r := ScanJSONStringEnd(body, i);
    } else if body[i] == LBRACE {
      r := SkipJSONComposite(body, i, LBRACE, RBRACE);
    } else if body[i] == LBRACKET {
      r := SkipJSONComposite(body, i, LBRACKET, RBRACKET);
    } else {
      ghost var from := i;
      while i < |body|
        invariant AtomEnd(body, from) == AtomEnd(body, i)
      {
        if IsDelimiter(body[i]) { return Some(i); }
        i := i + 1;
      }
      r := Some(i);
    }
  }

  lemma FindMemberStep(body: seq<byte>, i: nat, key: seq<byte>)
    ensures MemberAt(body, i).None? ==> FindMember(body, i, key) == None
    ensures MemberAt(body, i).Some? ==>
      var m := MemberAt(body, i).value;
      && (HasKey(body, m, key) ==> FindMember(body, i, key) == Some(m.value))
      && (!HasKey(body, m, key) && NextMember(body, m.value).None? ==> FindMember(body, i, key) == None)
      && (!HasKey(body, m, key) && NextMember(body, m.value).Some? ==>
          FindMember(body, i, key) == FindMember(body, NextMember(body, m.value).value, key))
  {}

  method FindTopLevelJSONValue(body: seq<byte>, key: seq<byte>) returns (r: Option<nat>)
    ensures r == FindTop(body, key)
  {
    hide FindMember, SkipValue, StringEnd, SkipWs;
    var i := SkipJSONWhitespace(body, 0);
    if i >= |body| || body[i] != LBRACE { return None; }
    i := i + 1;
    while true
      invariant i <= |body|
      invariant FindTop(body, key) == FindMember(body, i, key)
      decreases |body| - i
    {
      ghost var m := MemberAt(body, i);
      FindMemberStep(body, i, key);
      i := SkipJSONWhitespace(body, i);
      if i >= |body| || body[i] == RBRACE { return None; }
      var keyEnd := ScanJSONStringEnd(body, i);
      if keyEnd.None? { return None; }
      var field := body[i + 1..keyEnd.value - 1];
      i := SkipJSONWhitespace(body, keyEnd.value);
      if i >= |body| || body[i] != COLON { return None; }
      i := SkipJSONWhitespace(body, i + 1);
      assert m.Some? && i == m.value.value && (field == key <==> HasKey(body, m.value, key));
      if field == key { return Some(i); }
      var next := SkipJSONValueBytes(body, i);
      if next.None? { return None; }
      i := SkipJSONWhitespace(body, next.value);
      if i >= |body| || body[i] != COMMA { return None; }
      i := i + 1;
      assert NextMember(body, m.value.value) == Some(i);
    }
  }

  lemma PrependNothing(rest: Option<seq<byte>>)
    ensures Prepend([], rest) == rest
  {
    if rest.Some? { assert [] + rest.value == rest.value; }
  }

  lemma PrependOne(out: seq<byte>, b: byte, rest: Option<seq<byte>>)
    ensures Prepend(out + [b], rest) == Prepend(out, Prepend([b], rest))
  {
    if rest.Some? { assert out + [b] + rest.value == out + ([b] + rest.value); }
  }

  /** What one turn of the decode loop does to the rest of the string. */
  lemma DecodeStep(raw: seq<byte>, i: nat, out: seq<byte>)
    requires i < |raw|
    ensures raw[i] != BACKSLASH ==>
              Prepend(out, Decode(raw[i..])) == Prepend(out + [raw[i]], Decode(raw[i + 1..]))
    ensures raw[i] == BACKSLASH && (i + 1 == |raw| || Unescaped(raw[i + 1]).None?) ==> Prepend(out, Decode(raw[i..])) == None
    ensures raw[i] == BACKSLASH && i + 1 < |raw| && Unescaped(raw[i + 1]).Some? ==>
              Prepend(out, Decode(raw[i..])) == Prepend(out + [Unescaped(raw[i + 1]).value], Decode(raw[i + 2..]))
  {
    hide Unescaped, Prepend;
    var rest := raw[i..];
    assert rest[0] == raw[i] && rest[1..] == raw[i + 1..];
    if raw[i] != BACKSLASH {
      PrependOne(out, raw[i], Decode(rest[1..]));
    } else if i + 1 < |raw| {
      assert rest[1] == raw[i + 1] && rest[2..] == raw[i + 2..];
      if Unescaped(raw[i + 1]).Some? {
        PrependOne(out, Unescaped(raw[i + 1]).value, Decode(rest[2..]));
      } else {
        PrependNone(out);
      }
    } else {
      PrependNone(out);
    }
  }

  lemma PrependNone(out: seq<byte>)
    ensures Prepend(out, None) == None
  {}

  lemma DecodeEnds(raw: seq<byte>, i: nat, out: seq<byte>)
    requires i == |raw|
    ensures Prepend(out, Decode(raw[i..])) == Some(out)
  {
    ConcatEmpty(out);
  }

  /** `out` collects the decoded bytes. */
  method DecodeEscapes(raw: seq<byte>) returns (r: Option<seq<byte>>)
    ensures r == Decode(raw)
  {
    var out: seq<byte> := [];
    var i := 0;
    assert raw[0..] == raw;
    PrependNothing(Decode(raw));
    hide Decode, Prepend;
    while i < |raw|
      invariant i <= |raw|
      invariant Decode(raw) == Prepend(out, Decode(raw[i..]))
    {
      DecodeStep(raw, i, out);
      if raw[i] != BACKSLASH {
        out := out + [raw[i]];
        i := i + 1;
        continue;
      }
      i := i + 1;
      if i >= |raw| { return None; }
      var b := Unescaped(raw[i]);
      if b.None? { return None; }
      out := out + [b.value];
      i := i + 1;
    }
    DecodeEnds(raw, i, out);
    return Some(out);
  }

  /** Without an escape the raw slice is the answer. */
  method TopLevelJSONString(body: seq<byte>, key: seq<byte>) returns (r: Option<seq<byte>>)
    ensures r == TopString(body, key)
  {
    hide Decode, FindTop, StringEnd;
    var start := FindTopLevelJSONValue(body, key);
    if start.None? { return None; }
    var end := ScanJSONStringEnd(body, start.value);
    if end.None? { return None; }
    var raw := body[start.value + 1..end.value - 1];
    if BACKSLASH !in raw {
      PlainDecodes(raw);
      return Some(raw);
    }
    r := DecodeEscapes(raw);
  }

  lemma CountStep(body: seq<byte>, i: nat, count: nat, k: nat, next: nat, n: nat)
    requires SkipWs(body, i) == k < |body| && body[k] != RBRACKET
    requires SkipValue(body, k) == Some(next) && SkipWs(body, next) == n < |body|
    ensures CountItems(body, i, count)
         == if body[n] == COMMA then CountItems(body, n + 1, count + 1)
            else if body[n] == RBRACKET then Some(count + 1) else None
  {}

  lemma CountStops(body: seq<byte>, i: nat, count: nat, k: nat)
    requires SkipWs(body, i) == k
    ensures k >= |body| ==> CountItems(body, i, count) == None
    ensures k < |body| && body[k] == RBRACKET ==> CountItems(body, i, count) == Some(count)
    ensures k < |body| && body[k] != RBRACKET && SkipValue(body, k).None? ==> CountItems(body, i, count) == None
    ensures k < |body| && body[k] != RBRACKET && SkipValue(body, k).Some? && SkipWs(body, SkipValue(body, k).value) >= |body|
            ==> CountItems(body, i, count) == None
  {}

  /** The items of an array, from behind its opening bracket on. */
  method CountArrayItems(body: seq<byte>, start: nat) returns (r: Option<nat>)
    requires start <= |body|
    ensures r == CountItems(body, start, 0)
  {
    hide SkipValue, CountItems, SkipWs;
    var i := start;
    var count: nat := 0;
    while true
      invariant i <= |body|
      invariant CountItems(body, start, 0) == CountItems(body, i, count)
      decreases |body| - i
    {
      ghost var from := i;
      i := SkipJSONWhitespace(body, i);
      ghost var k := i;
      CountStops(body, from, count, k);
      if i >= |body| { return None; }
      if body[i] == RBRACKET { return Some(count); }
      var next := SkipJSONValueBytes(body, i);
      if next.None? { return None; }
      count := count + 1;
      i := SkipJSONWhitespace(body, next.value);
      if i >= |body| { return None; }
      CountStep(body, from, count - 1, k, next.value, i);
      if body[i] == COMMA {
        i := i + 1;
        continue;
      }
      if body[i] == RBRACKET { return Some(count); }
      return None;
    }
  }

  method TopLevelJSONArrayLen(body: seq<byte>, key: seq<byte>) returns (r: Option<nat>)
    ensures r == TopArrayLen(body, key)
  {
    hide FindTop, CountItems;
    var start := FindTopLevelJSONValue(body, key);
    if start.None? { return None; }
    var i := SkipJSONWhitespace(body, start.value);
    if i >= |body| || body[i] != LBRACKET { return None; }
    r := CountArrayItems(body, i + 1);
  }

  lemma {:induction false} PlainDecodes(raw: seq<byte>)
    requires BACKSLASH !in raw
    ensures Decode(raw) == Some(raw)
  {
    if raw != [] {
      PlainDecodes(raw[1..]);
      assert [raw[0]] + raw[1..] == raw;
    }
  }

  // ---------- prefix stability: what is found in a cut-off body stays found ----------

  lemma {:induction false} SkipWsStable(body: seq<byte>, more: seq<byte>, i: nat)
    requires SkipWs(body, i) < |body|
    ensures SkipWs(body + more, i) == SkipWs(body, i)
    decreases |body| - i
  {
    if IsWs(body[i]) { SkipWsStable(body, more, i + 1); }
  }

  lemma {:induction false} InStringStable(body: seq<byte>, more: seq<byte>, i: nat, escaped: bool)
    requires InString(body, i, escaped).Some?
    ensures InString(body + more, i, escaped) == InString(body, i, escaped)
    decreases |body| - i
  {
    if escaped {
      InStringStable(body, more, i + 1, false);
    } else if body[i] == BACKSLASH {
      InStringStable(body, more, i + 1, true);
    } else if body[i] != QUOTE {
      InStringStable(body, more, i + 1, false);
    }
  }

  lemma StringEndStable(body: seq<byte>, more: seq<byte>, i: nat)
    requires StringEnd(body, i).Some?
    ensures StringEnd(body + more, i) == StringEnd(body, i)
  {
    InStringStable(body, more, i + 1, false);
  }

  lemma {:induction false} CompositeStable(body: seq<byte>, more: seq<byte>, i: nat, open: byte, close: byte, depth: int)
    requires Composite(body, i, open, close, depth).Some?
    ensures Composite(body + more, i, open, close, depth) == Composite(body, i, open, close, depth)
    decreases |body| - i, if i < |body| && body[i] == open then 0 else 1
  {
    assert (body + more)[i] == body[i];
    if body[i] == QUOTE {
      StringEndStable(body, more, i);
      CompositeStable(body, more, StringEnd(body, i).value, open, close, depth);
    } else if body[i] == open {
      CompositeStable(body, more, i + 1, open, close, depth + 1);
    } else if body[i] == close {
      if depth - 1 != 0 { CompositeStable(body, more, i + 1, open, close, depth - 1); }
    } else if body[i] == LBRACE {
      CompositeStable(body, more, i, LBRACE, RBRACE, 0);
      CompositeStable(body, more, Composite(body, i, LBRACE, RBRACE, 0).value, open, close, depth);
    } else if body[i] == LBRACKET {
      CompositeStable(body, more, i, LBRACKET, RBRACKET, 0);
      CompositeStable(body, more, Composite(body, i, LBRACKET, RBRACKET, 0).value, open, close, depth);
    } else {
      CompositeStable(body, more, i + 1, open, close, depth);
    }
  }

  lemma {:induction false} AtomEndStable(body: seq<byte>, more: seq<byte>, i: nat)
    requires AtomEnd(body, i) < |body|
    ensures AtomEnd(body + more, i) == AtomEnd(body, i)
    decreases |body| - i
  {
    if !IsDelimiter(body[i]) { AtomEndStable(body, more, i + 1); }
  }

  lemma SkipValueStable(body: seq<byte>, more: seq<byte>, i: nat)
    requires SkipValue(body, i).Some? && SkipValue(body, i).value < |body|
    ensures SkipValue(body + more, i) == SkipValue(body, i)
  {
    SkipWsStable(body, more, i);
    var j := SkipWs(body, i);
    if body[j] == QUOTE {
      StringEndStable(body, more, j);
    } else if body[j] == LBRACE {
      CompositeStable(body, more, j, LBRACE, RBRACE, 0);
    } else if body[j] == LBRACKET {
      CompositeStable(body, more, j, LBRACKET, RBRACKET, 0);
    } else {
      AtomEndStable(body, more, j);
    }
  }

  lemma MemberAtStable(body: seq<byte>, more: seq<byte>, i: nat)
    requires MemberAt(body, i).Some? && MemberAt(body, i).value.value < |body|
    ensures MemberAt(body + more, i) == MemberAt(body, i)
  {
    SkipWsStable(body, more, i);
    var m := MemberAt(body, i).value;
    StringEndStable(body, more, m.key);
    SkipWsStable(body, more, m.keyEnd);
    SkipWsStable(body, more, SkipWs(body, m.keyEnd) + 1);
  }

  lemma NextMemberStable(body: seq<byte>, more: seq<byte>, v: nat)
    requires NextMember(body, v).Some?
    ensures NextMember(body + more, v) == NextMember(body, v)
  {
    SkipValueStable(body, more, v);
    SkipWsStable(body, more, SkipValue(body, v).value);
  }

  lemma {:induction false} FindMemberStable(body: seq<byte>, more: seq<byte>, i: nat, key: seq<byte>)
    requires FindMember(body, i, key).Some? && FindMember(body, i, key).value < |body|
    ensures FindMember(body + more, i, key) == FindMember(body, i, key)
    decreases |body| - i
  {
    var m := MemberAt(body, i).value;
    if !HasKey(body, m, key) { NextMemberStable(body, more, m.value); }
    MemberAtStable(body, more, i);
    assert (body + more)[m.key + 1..m.keyEnd - 1] == body[m.key + 1..m.keyEnd - 1];
    if !HasKey(body, m, key) { FindMemberStable(body, more, NextMember(body, m.value).value, key); }
  }

  lemma FindTopStable(body: seq<byte>, more: seq<byte>, key: seq<byte>)
    requires FindTop(body, key).Some? && FindTop(body, key).value < |body|
    ensures FindTop(body + more, key) == FindTop(body, key)
  {
    hide FindMember;
    SkipWsStable(body, more, 0);
    FindMemberStable(body, more, SkipWs(body, 0) + 1, key);
  }

  /** A string found in a truncated body is the one found in every longer body. */
  lemma TopStringStable(body: seq<byte>, more: seq<byte>, key: seq<byte>)
    requires TopString(body, key).Some?
    ensures TopString(body + more, key) == TopString(body, key)
  {
    hide FindTop, StringEnd, Decode;
    var start := FindTop(body, key).value;
    StringEndStable(body, more, start);
    FindTopStable(body, more, key);
    var end := StringEnd(body, start).value;
    assert (body + more)[start + 1..end - 1] == body[start + 1..end - 1];
  }

  lemma {:induction false} CountItemsStable(body: seq<byte>, more: seq<byte>, i: nat, count: nat)
    requires CountItems(body, i, count).Some?
    ensures CountItems(body + more, i, count) == CountItems(body, i, count)
    decreases |body| - i
  {
    SkipWsStable(body, more, i);
    var k := SkipWs(body, i);
    if body[k] != RBRACKET {
      SkipValueStable(body, more, k);
      var next := SkipValue(body, k).value;
      SkipWsStable(body, more, next);
      var n := SkipWs(body, next);
      if body[n] == COMMA { CountItemsStable(body, more, n + 1, count + 1); }
    }
  }

  /** An array length found in a truncated body is the one found in every longer body. */
  lemma TopArrayLenStable(body: seq<byte>, more: seq<byte>, key: seq<byte>)
    requires TopArrayLen(body, key).Some?
    ensures TopArrayLen(body + more, key) == TopArrayLen(body, key)
  {
    hide FindTop, CountItems, SkipWs;
    var start := FindTop(body, key).value;
    SkipWsStable(body, more, start);
    FindTopStable(body, more, key);
    CountItemsStable(body, more, SkipWs(body, start) + 1, 0);
  }
}
