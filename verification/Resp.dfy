/** The RESP framing of the usage queue: commands out, replies in. */
module Resp {
  import opened Bytes

  const PLUS: byte := 43
  const MINUS: byte := 45
  const STAR: byte := 42
  const DOLLAR: byte := 36
  const ZERO: byte := 48
  const MAX_INT: int := 9223372036854775807

  // ---------- decimal numbers ----------

  predicate IsDigit(b: byte) { 48 <= b <= 57 }

  predicate AllDigits(s: seq<byte>) { forall b | b in s :: IsDigit(b) }

  /** `%d` of a length. */
  function Digits(n: nat): (s: seq<byte>)
    ensures s != [] && AllDigits(s)
  {
    if n < 10 then [ZERO + n] else Digits(n / 10) + [ZERO + n % 10]
  }

  function Number(s: seq<byte>): nat
    requires AllDigits(s)
  {
    if s == [] then 0
    else
      assert s[|s| - 1] in s;
      10 * Number(s[..|s| - 1]) + (s[|s| - 1] - ZERO)
  }

  /** An optional sign and at least one digit, within 64 bits; none is an error. */
  function Atoi(s: seq<byte>): Option<int> {
    var negative := s != [] && s[0] == MINUS;
    var digits := if s != [] && (s[0] == MINUS || s[0] == PLUS) then s[1..] else s;
    if digits == [] || !AllDigits(digits) then None
    else
      var n: int := if negative then 0 - Number(digits) else Number(digits);
      if -MAX_INT - 1 <= n <= MAX_INT then Some(n) else None
  }

  lemma {:induction false} NumberOfDigits(n: nat)
    ensures Number(Digits(n)) == n
  {
    if n >= 10 {
      NumberOfDigits(n / 10);
      ConcatSnoc(Digits(n / 10), ZERO + n % 10);
    }
  }

  lemma AtoiOfDigits(n: nat)
    requires n <= MAX_INT
    ensures Atoi(Digits(n)) == Some(n)
  {
    NumberOfDigits(n);
    var s := Digits(n);
    assert s[0] in s;
  }

  // ---------- writing ----------

  const CRLF: seq<byte> := [CR, LF]

  /** A count or a length after its mark. */
  function Header(mark: byte, n: nat): seq<byte> { [mark] + (Digits(n) + CRLF) }

  function Bulk(arg: seq<byte>): seq<byte> { Header(DOLLAR, |arg|) + (arg + CRLF) }

  function Bulks(args: seq<seq<byte>>): seq<byte> {
    if args == [] then [] else Bulks(args[..|args| - 1]) + Bulk(args[|args| - 1])
  }

  function Command(args: seq<seq<byte>>): seq<byte> { Header(STAR, |args|) + Bulks(args) }

  /** A connection being written to; writes that fail are not part of this model. */
  class Writer {
    var written: seq<byte>

    constructor ()
      ensures written == []
    {
      written := [];
    }

    method Write(s: seq<byte>)
      modifies this
      ensures written == old(written) + s
    {
      written := written + s;
    }
  }

  method WriteRESPCommand(w: Writer, args: seq<seq<byte>>)
    modifies w
    ensures w.written == old(w.written) + Command(args)
  {
    hide Digits;
    w.Write([STAR] + (Digits(|args|) + CRLF));
    ConcatEmpty(w.written);
    for i := 0 to |args|
      invariant w.written == old(w.written) + Header(STAR, |args|) + Bulks(args[..i])
    {
      w.Write(([DOLLAR] + (Digits(|args[i]|) + CRLF)) + (args[i] + CRLF));
      OneMoreBulk(args, i);
      ConcatAssociates(old(w.written) + Header(STAR, |args|), Bulks(args[..i]), Bulk(args[i]));
    }
    assert args[..|args|] == args;
    ConcatAssociates(old(w.written), Header(STAR, |args|), Bulks(args));
  }

  lemma OneMoreBulk(args: seq<seq<byte>>, i: nat)
    requires i < |args|
    ensures Bulks(args[..i + 1]) == Bulks(args[..i]) + Bulk(args[i])
  {
    assert args[..i + 1][..i] == args[..i];
  }

  // ---------- reading ----------

  /** The index of the first line feed. */
  function LineFeed(s: seq<byte>): (r: Option<nat>)
    ensures r.Some? ==> r.value < |s| && s[r.value] == LF && LF !in s[..r.value]
    ensures r.None? ==> LF !in s
  {
    if s == [] then None
    else if s[0] == LF then Some(0)
    else match LineFeed(s[1..])
      case None => None
      case Some(i) =>
        assert s[..i + 1] == [s[0]] + s[1..][..i];
        Some(i + 1)
  }

  /** A line without its end, and what follows; none when the stream ends first. */
  function ReadLine(s: seq<byte>): (Option<seq<byte>>, seq<byte>) {
    match LineFeed(s)
    case None => (None, [])
    case Some(i) => (Some(if i > 0 && s[i - 1] == CR then s[..i - 1] else s[..i]), s[i + 1..])
  }

  datatype Failure = EndOfStream | ErrorReply(line: seq<byte>) | BadLength | BadTerminator | BadPrefix

  datatype Reply = Payload(bytes: seq<byte>) | NilBulk | Failed(failure: Failure)

  /** The payload of announced length and its terminator. */
  function ReadBody(s: seq<byte>, n: nat): (Reply, seq<byte>) {
    if |s| < n + 2 then (Failed(EndOfStream), [])
    else if s[n] != CR || s[n + 1] != LF then (Failed(BadTerminator), s[n + 2..])
    else (Payload(s[..n]), s[n + 2..])
  }

  /** One reply, and what is left of the stream. */
  function Read(s: seq<byte>): (Reply, seq<byte>) {
    if s == [] then (Failed(EndOfStream), [])
    else
      var (line, rest) := ReadLine(s[1..]);
      if s[0] == PLUS then (if line.None? then Failed(EndOfStream) else Payload(line.value), rest)
      else if s[0] == MINUS then (Failed(ErrorReply(if line.None? then [] else line.value)), rest)
      else if s[0] == DOLLAR then
        if line.None? then (Failed(EndOfStream), rest)
        else match Atoi(line.value)
          case None => (Failed(BadLength), rest)
          case Some(n) => if n < 0 then (NilBulk, rest) else ReadBody(rest, n)
      else (Failed(BadPrefix), s[1..])
  }

  /** A buffered reader over what is left of a stream. */
  class Reader {
    var left: seq<byte>

    constructor (s: seq<byte>)
      ensures left == s
    {
      left := s;
    }

    method ReadByte() returns (b: Option<byte>)
      modifies this
      ensures old(left) == [] ==> b == None && left == []
      ensures old(left) != [] ==> b == Some(old(left)[0]) && left == old(left)[1..]
    {
      if left == [] { return None; }
      b := Some(left[0]);
      left := left[1..];
    }

    /** Up to and including the first line feed; everything is consumed when there is none. */
    method ReadString() returns (line: Option<seq<byte>>)
      modifies this
      ensures match LineFeed(old(left))
        case None => line == None && left == []
        case Some(i) => line == Some(old(left)[..i + 1]) && left == old(left)[i + 1..]
    {
      match LineFeed(left) {
        case None =>
          line, left := None, [];
        case Some(i) =>
          line, left := Some(left[..i + 1]), left[i + 1..];
      }
    }

    method ReadFull(n: nat) returns (buf: Option<seq<byte>>)
      modifies this
      ensures |old(left)| < n ==> buf == None && left == []
      ensures |old(left)| >= n ==> buf == Some(old(left)[..n]) && left == old(left)[n..]
    {
      if |left| < n {
        buf, left := None, [];
      } else {
        buf, left := Some(left[..n]), left[n..];
      }
    }

    method ReadRESPLine() returns (line: Option<seq<byte>>)
      modifies this
      ensures (line, left) == ReadLine(old(left))
    {
      var raw := ReadString();
      if raw.None? { return None; }
      ghost var i := LineFeed(old(left)).value;
      assert raw.value[..i] == old(left)[..i] && (i > 0 ==> raw.value[..i][..i - 1] == old(left)[..i - 1]);
      var text := TrimSuffix(TrimSuffix(raw.value, LF), CR);
      return Some(text);
    }

    method ReadRESP() returns (reply: Reply)
      modifies this
      ensures (reply, left) == Read(old(left))
    {
      hide ReadLine, Atoi;
      var prefix := ReadByte();
      if prefix.None? { return Failed(EndOfStream); }
      if prefix.value == PLUS {
        var line := ReadRESPLine();
        return if line.None? then Failed(EndOfStream) else Payload(line.value);
      }
      if prefix.value == MINUS {
        var line := ReadRESPLine();
        return Failed(ErrorReply(if line.None? then [] else line.value));
      }
      if prefix.value != DOLLAR { return Failed(BadPrefix); }
      var line := ReadRESPLine();
      if line.None? { return Failed(EndOfStream); }
      var n := Atoi(line.value);
      if n.None? { return Failed(BadLength); }
      if n.value < 0 { return NilBulk; }
      ghost var body := left;
      var buf := ReadFull(n.value + 2);
      if buf.None? { return Failed(EndOfStream); }
      var bytes := buf.value;
      if bytes[|bytes| - 2] != CR || bytes[|bytes| - 1] != LF { return Failed(BadTerminator); }
      assert bytes[..n.value] == body[..n.value];
      return Payload(bytes[..n.value]);
    }
  }

  function TrimSuffix(s: seq<byte>, b: byte): seq<byte> {
    if s != [] && s[|s| - 1] == b then s[..|s| - 1] else s
  }

  // ---------- the reader undoes the writer ----------

  lemma {:induction false} LineFeedAfter(line: seq<byte>, rest: seq<byte>)
    requires LF !in line
    ensures LineFeed(line + [LF] + rest) == Some(|line|)
  {
    var s := line + [LF] + rest;
    if line != [] {
      assert s[1..] == line[1..] + [LF] + rest;
      LineFeedAfter(line[1..], rest);
    }
  }

  lemma ReadLineAfter(line: seq<byte>, rest: seq<byte>)
    requires LF !in line
    ensures ReadLine((line + CRLF) + rest) == (Some(line), rest)
  {
    var s := (line + CRLF) + rest;
    var held := line + [CR];
    assert s == held + [LF] + rest;
    LineFeedAfter(held, rest);
    assert s[..|line|] == line && s[|line|] == CR && s[|held| + 1..] == rest;
  }

  lemma DigitsHaveNoLineFeed(n: nat)
    ensures LF !in Digits(n)
  {
    assert AllDigits(Digits(n));
  }

  lemma ReadBodyAfter(arg: seq<byte>, rest: seq<byte>)
    ensures ReadBody((arg + CRLF) + rest, |arg|) == (Payload(arg), rest)
  {
    var s := (arg + CRLF) + rest;
    assert s[..|arg|] == arg && s[|arg|] == CR && s[|arg| + 1] == LF && s[|arg| + 2..] == rest;
  }

  /** One argument, whatever bytes it holds, is read back and what follows it stays. */
  lemma ReadUndoesBulk(arg: seq<byte>, rest: seq<byte>)
    requires |arg| <= MAX_INT
    ensures Read(Bulk(arg) + rest) == (Payload(arg), rest)
  {
    hide Digits, ReadLine, Atoi, ReadBody;
    var digits := Digits(|arg|);
    var body := (arg + CRLF) + rest;
    var s := Bulk(arg) + rest;
    assert s == [DOLLAR] + ((digits + CRLF) + body) by { Regroup(digits + CRLF, arg + CRLF, rest); }
    assert s[1..] == (digits + CRLF) + body;
    DigitsHaveNoLineFeed(|arg|);
    ReadLineAfter(digits, body);
    AtoiOfDigits(|arg|);
    ReadBodyAfter(arg, rest);
  }

  lemma Regroup(a: seq<byte>, b: seq<byte>, c: seq<byte>)
    ensures ([DOLLAR] + a) + b + c == [DOLLAR] + (a + (b + c))
  {
    ConcatAssociates(a, b, c);
    ConcatAssociates([DOLLAR], a, b);
    ConcatAssociates([DOLLAR], a + b, c);
  }

  /** As many replies as asked for, as long as they are payloads. */
  function ReadAll(s: seq<byte>, n: nat): (Option<seq<seq<byte>>>, seq<byte>) {
    if n == 0 then (Some([]), s)
    else match ReadAll(s, n - 1)
      case (None, rest) => (None, rest)
      case (Some(args), rest) =>
        var (reply, left) := Read(rest);
        if reply.Payload? then (Some(args + [reply.bytes]), left) else (None, left)
  }

  lemma {:induction false} ReadAllUndoesBulks(args: seq<seq<byte>>, rest: seq<byte>)
    requires forall a | a in args :: |a| <= MAX_INT
    ensures ReadAll(Bulks(args) + rest, |args|) == (Some(args), rest)
  {
    hide Bulk, Read;
    if args == [] {
      ConcatEmpty(rest);
    } else {
      var init, last := args[..|args| - 1], args[|args| - 1];
      ConcatAssociates(Bulks(init), Bulk(last), rest);
      ReadAllUndoesBulks(init, Bulk(last) + rest);
      ReadUndoesBulk(last, rest);
      SplitLast(args);
    }
  }

  /**
   * A written command, read back: the header line gives the number of arguments, that many replies give the
   * arguments in order, and what follows the command is unread.
   */
  lemma CommandRoundTrip(args: seq<seq<byte>>, rest: seq<byte>)
    requires |args| <= MAX_INT && forall a | a in args :: |a| <= MAX_INT
    ensures var s := Command(args) + rest;
      && s[0] == STAR
      && ReadLine(s[1..]).0 == Some(Digits(|args|)) && Atoi(Digits(|args|)) == Some(|args|)
      && ReadAll(ReadLine(s[1..]).1, |args|) == (Some(args), rest)
  {
    hide Digits, ReadLine, Atoi, ReadAll, Bulks;
    var digits := Digits(|args|);
    var s := Command(args) + rest;
    ConcatAssociates([STAR] + (digits + CRLF), Bulks(args), rest);
    ConcatAssociates([STAR], digits + CRLF, Bulks(args) + rest);
    assert s == [STAR] + ((digits + CRLF) + (Bulks(args) + rest));
    assert s[1..] == (digits + CRLF) + (Bulks(args) + rest);
    DigitsHaveNoLineFeed(|args|);
    ReadLineAfter(digits, Bulks(args) + rest);
    AtoiOfDigits(|args|);
    ReadAllUndoesBulks(args, rest);
  }

  // ---------- what else can be read ----------

  lemma ReadLineFrames(s: seq<byte>)
    requires ReadLine(s).0.Some?
    ensures s == (s[..LineFeed(s).value] + [LF]) + ReadLine(s).1 && LF !in s[..LineFeed(s).value]
  {}

  lemma ReadBodyFrames(s: seq<byte>, n: nat)
    requires ReadBody(s, n).0.Payload?
    ensures s == (ReadBody(s, n).0.bytes + CRLF) + ReadBody(s, n).1 && |ReadBody(s, n).0.bytes| == n
  {
    assert s == (s[..n] + [s[n], s[n + 1]]) + s[n + 2..];
  }

  /** A payload is framed by its own length: nothing is lost, invented or read past. */
  lemma PayloadIsFramed(s: seq<byte>) returns (line: seq<byte>)
    requires s != [] && s[0] == DOLLAR && Read(s).0.Payload?
    ensures LF !in line && s == ([DOLLAR] + (line + [LF])) + (Read(s).0.bytes + CRLF) + Read(s).1
    ensures ReadLine(line + [LF]).0.Some? && Atoi(ReadLine(line + [LF]).0.value) == Some(|Read(s).0.bytes|)
  {
    hide Atoi, ReadBody;
    var tail := s[1..];
    line := tail[..LineFeed(tail).value];
    var rest := ReadLine(tail).1;
    ReadLineFrames(tail);
    SameLine(tail);
    var n := Atoi(ReadLine(tail).0.value).value;
    ReadBodyFrames(rest, n);
    Regroup(line + [LF], Read(s).0.bytes + CRLF, Read(s).1);
    assert s == [DOLLAR] + tail;
  }

  lemma SameLine(s: seq<byte>)
    requires ReadLine(s).0.Some?
    ensures ReadLine(s[..LineFeed(s).value] + [LF]).0 == ReadLine(s).0
  {
    var i := LineFeed(s).value;
    var line := s[..i];
    LineFeedAfter(line, []);
    ConcatEmpty(line + [LF]);
    if i > 0 { assert (line + [LF])[..i - 1] == s[..i - 1]; }
    assert (line + [LF])[..i] == s[..i];
  }

  lemma AtoiOfNegative(n: nat)
    requires 0 < n <= MAX_INT
    ensures Atoi([MINUS] + Digits(n)) == Some(0 - n)
  {
    NumberOfDigits(n);
    assert ([MINUS] + Digits(n))[1..] == Digits(n);
  }

  lemma MarkedLine(mark: byte, line: seq<byte>, rest: seq<byte>)
    requires LF !in line
    ensures var s := [mark] + (line + CRLF) + rest; s[0] == mark && ReadLine(s[1..]) == (Some(line), rest)
  {
    hide ReadLine;
    var s := [mark] + (line + CRLF) + rest;
    assert s[1..] == (line + CRLF) + rest;
    ReadLineAfter(line, rest);
  }

  /** The replies without a payload of announced length: an empty queue, a status line, an error line. */
  lemma LinesAreRead(line: seq<byte>, n: nat, rest: seq<byte>)
    requires LF !in line && 0 < n <= MAX_INT
    ensures Read([DOLLAR] + (([MINUS] + Digits(n)) + CRLF) + rest) == (NilBulk, rest)
    ensures Read([PLUS] + (line + CRLF) + rest) == (Payload(line), rest)
    ensures Read([MINUS] + (line + CRLF) + rest) == (Failed(ErrorReply(line)), rest)
  {
    hide ReadLine, Atoi, Digits;
    DigitsHaveNoLineFeed(n);
    AtoiOfNegative(n);
    MarkedLine(DOLLAR, [MINUS] + Digits(n), rest);
    MarkedLine(PLUS, line, rest);
    MarkedLine(MINUS, line, rest);
  }

  /** A length that is no number, and a payload that does not end where it should, are errors; the stream goes on behind. */
  lemma BadBulksFail(line: seq<byte>, arg: seq<byte>, end: seq<byte>, rest: seq<byte>)
    requires LF !in line && Atoi(line).None? && |arg| <= MAX_INT && |end| == 2 && end != CRLF
    ensures Read([DOLLAR] + (line + CRLF) + rest) == (Failed(BadLength), rest)
    ensures Read(Header(DOLLAR, |arg|) + ((arg + end) + rest)) == (Failed(BadTerminator), rest)
  {
    hide ReadLine, Atoi, Digits;
    MarkedLine(DOLLAR, line, rest);
    var body := (arg + end) + rest;
    DigitsHaveNoLineFeed(|arg|);
    AtoiOfDigits(|arg|);
    MarkedLine(DOLLAR, Digits(|arg|), body);
    assert body[|arg|] == end[0] && body[|arg| + 1] == end[1] && body[|arg| + 2..] == rest;
  }

  /** So is a length that does not fit in 64 bits. */
  lemma HugeLengthFails(n: nat, rest: seq<byte>)
    requires n > MAX_INT
    ensures Read([DOLLAR] + (Digits(n) + CRLF) + rest) == (Failed(BadLength), rest)
  {
    NumberOfDigits(n);
    var digits := Digits(n);
    assert digits[0] in digits;
    assert Atoi(digits).None?;
    hide ReadLine, Atoi, Digits;
    DigitsHaveNoLineFeed(n);
    MarkedLine(DOLLAR, digits, rest);
  }

  /** What a reply can be, by its first byte; and an empty queue is only ever a negative length. */
  lemma RepliesExactly(s: seq<byte>)
    requires s != []
    ensures Read(s).0 == Failed(BadPrefix) <==> s[0] !in {PLUS, MINUS, DOLLAR}
    ensures Read(s).0.Failed? && Read(s).0.failure.ErrorReply? <==> s[0] == MINUS
    ensures Read(s).0.NilBulk? <==>
              s[0] == DOLLAR && ReadLine(s[1..]).0.Some? && exists n :: n < 0 && Atoi(ReadLine(s[1..]).0.value) == Some(n)
    ensures Read(s).0.Payload? ==> s[0] == PLUS || s[0] == DOLLAR
  {
    hide ReadLine, Atoi;
  }

  lemma CutInHeader(digits: seq<byte>, k: nat)
    requires LF !in digits && 0 < k < 1 + |digits + CRLF|
    ensures Read(([DOLLAR] + (digits + CRLF))[..k]).0 == Failed(EndOfStream)
  {
    var s := ([DOLLAR] + (digits + CRLF))[..k];
    assert s[0] == DOLLAR && s[1..] == (digits + [CR])[..k - 1];
    assert LF !in s[1..];
  }

  lemma CutInBody(arg: seq<byte>, j: nat)
    requires |arg| <= MAX_INT && j < |arg + CRLF|
    ensures Read(Header(DOLLAR, |arg|) + (arg + CRLF)[..j]).0 == Failed(EndOfStream)
  {
    hide Digits, Atoi, ReadLine;
    var digits := Digits(|arg|);
    var part := (arg + CRLF)[..j];
    var s := Header(DOLLAR, |arg|) + part;
    ConcatAssociates([DOLLAR], digits + CRLF, part);
    assert s[0] == DOLLAR && s[1..] == (digits + CRLF) + part;
    DigitsHaveNoLineFeed(|arg|);
    ReadLineAfter(digits, part);
    AtoiOfDigits(|arg|);
  }

  /** Cut anywhere before its end, an argument is not read as something else. */
  lemma TruncatedBulkFails(arg: seq<byte>, k: nat)
    requires |arg| <= MAX_INT && k < |Bulk(arg)|
    ensures Read(Bulk(arg)[..k]).0 == Failed(EndOfStream)
  {
    hide Digits, Atoi, ReadLine;
    var header := Header(DOLLAR, |arg|);
    DigitsHaveNoLineFeed(|arg|);
    if k == 0 {
    } else if k < |header| {
      assert Bulk(arg)[..k] == header[..k];
      CutInHeader(Digits(|arg|), k);
    } else {
      assert Bulk(arg)[..k] == header + (arg + CRLF)[..k - |header|];
      CutInBody(arg, k - |header|);
    }
  }
}
