/**
 Lines of an event stream.  The reference reads the whole text; the proxy sees it
 in pieces and looks for a line break only inside the piece at hand.
 */
module Lines {
  import opened Bytes

  predicate IsBreak(b: byte) { b == LF || b == CR }

  predicate NoBreak(s: seq<byte>) { forall k | 0 <= k < |s| :: !IsBreak(s[k]) }

  // ---------- the whole text (WHATWG HTML, section 9.2.5: CRLF, CR or LF ends a line) ----------

  /** The index of the first line break, or the length. */
  function BreakAt(s: seq<byte>): (i: nat)
    ensures i <= |s| && NoBreak(s[..i]) && (i < |s| ==> IsBreak(s[i]))
  {
    if s == [] || IsBreak(s[0]) then 0
    else
      var i := 1 + BreakAt(s[1..]);
      assert s[..i] == [s[0]] + s[1..][..i - 1];
      i
  }

  function BreakWidth(s: seq<byte>, i: nat): (w: nat)
    requires i < |s| && IsBreak(s[i])
    ensures 1 <= w && i + w <= |s|
  {
    if s[i] == CR && i + 1 < |s| && s[i + 1] == LF then 2 else 1
  }

  /** What follows the first line and its break. */
  function Following(s: seq<byte>): (t: seq<byte>)
    requires BreakAt(s) < |s|
    ensures |t| < |s|
  {
    s[BreakAt(s) + BreakWidth(s, BreakAt(s))..]
  }

  /** The completed lines of a text, without their breaks. */
  function LinesOf(s: seq<byte>): seq<seq<byte>>
    decreases |s|
  {
    if BreakAt(s) == |s| then [] else [s[..BreakAt(s)]] + LinesOf(Following(s))
  }

  /** The unfinished last line of a text. */
  function Rest(s: seq<byte>): (r: seq<byte>)
    ensures NoBreak(r) && |r| <= |s|
    decreases |s|
  {
    if BreakAt(s) == |s| then assert s[..|s|] == s; s else Rest(Following(s))
  }

  lemma {:induction false} BreakAtMost(s: seq<byte>, k: nat)
    requires k < |s| && IsBreak(s[k])
    ensures BreakAt(s) <= k
  {
    if k > 0 && !IsBreak(s[0]) { BreakAtMost(s[1..], k - 1); }
  }

  lemma {:induction false} BreakAtLeast(line: seq<byte>, s: seq<byte>)
    requires NoBreak(line)
    ensures BreakAt(line + s) >= |line|
  {
    if line != [] {
      assert (line + s)[1..] == line[1..] + s;
      assert !IsBreak(line[0]);
      BreakAtLeast(line[1..], s);
    }
  }

  lemma BreakAtFirst(line: seq<byte>, s: seq<byte>)
    requires NoBreak(line) && (s == [] || IsBreak(s[0]))
    ensures BreakAt(line + s) == |line|
  {
    hide BreakAt;
    BreakAtLeast(line, s);
    if s != [] { BreakAtMost(line + s, |line|); }
  }

  lemma BreakAtShift(line: seq<byte>, s: seq<byte>)
    requires NoBreak(line)
    ensures BreakAt(line + s) == |line| + BreakAt(s)
  {
    var i := BreakAt(s);
    assert line + s == (line + s[..i]) + s[i..];
    BreakAtFirst(line + s[..i], s[i..]);
  }

  lemma NoBreakOneLine(s: seq<byte>)
    requires NoBreak(s)
    ensures BreakAt(s) == |s| && LinesOf(s) == [] && Rest(s) == s
  {
    BreakAtFirst(s, []);
    assert s + [] == s;
  }

  // ---------- a piece read behind an unfinished line ----------

  predicate EndsInCR(s: seq<byte>) { s != [] && s[|s| - 1] == CR }

  /** The piece `c` begins with the LF of a CRLF whose CR ended what was read before. */
  predicate SplitsCRLF(s: seq<byte>, c: seq<byte>) { EndsInCR(s) && c != [] && c[0] == LF }

  /** The piece without the LF that belongs to the break before it. */
  function Remaining(s: seq<byte>, c: seq<byte>): seq<byte> {
    if SplitsCRLF(s, c) then c[1..] else c
  }

  lemma FollowingAppend(s: seq<byte>, c: seq<byte>)
    requires BreakAt(s) < |s|
    ensures BreakAt(s + c) == BreakAt(s) && (s + c)[..BreakAt(s)] == s[..BreakAt(s)]
    ensures Following(s) == [] && SplitsCRLF(s, c) ==> Following(s + c) == c[1..]
    ensures !(Following(s) == [] && SplitsCRLF(s, c)) ==> Following(s + c) == Following(s) + c
  {
    hide BreakAt;
    var i := BreakAt(s);
    var w := BreakWidth(s, i);
    assert s + c == s[..i] + (s[i..] + c);
    BreakAtFirst(s[..i], s[i..] + c);
    if i + 1 < |s| {
      assert (s + c)[i + 1] == s[i + 1];
    } else if c != [] {
      assert (s + c)[i + 1] == c[0];
    }
  }

  lemma FollowingEnd(s: seq<byte>)
    requires BreakAt(s) < |s| && Following(s) != []
    ensures EndsInCR(Following(s)) <==> EndsInCR(s)
  {
    hide BreakAt;
  }

  lemma LinesUnfold(s: seq<byte>)
    requires BreakAt(s) < |s|
    ensures LinesOf(s) == [s[..BreakAt(s)]] + LinesOf(Following(s)) && Rest(s) == Rest(Following(s))
  {}

  /** A text read in two parts has the lines of the first part, then those read behind its rest. */
  lemma {:induction false} LinesAppend(s: seq<byte>, c: seq<byte>)
    ensures LinesOf(s + c) == LinesOf(s) + LinesOf(Rest(s) + Remaining(s, c))
    ensures Rest(s + c) == Rest(Rest(s) + Remaining(s, c))
    decreases |s|
  {
    hide BreakAt, BreakWidth, NoBreak, LinesOf, Rest;
    if BreakAt(s) == |s| {
      NoCREnd(s);
      NoBreakOneLine(s);
      ConcatEmpty(LinesOf(s + c));
    } else {
      hide Following;
      FollowingAppend(s, c);
      LinesUnfold(s);
      LinesUnfold(s + c);
      var t := Following(s);
      if t == [] {
        EmptyNoBreak();
        NoBreakOneLine(t);
        ConcatEmpty(Remaining(s, c));
        ConcatEmpty(c);
      } else {
        FollowingEnd(s);
        LinesAppend(t, c);
      }
      ConcatAssociates([s[..BreakAt(s)]], LinesOf(t), LinesOf(Rest(t) + Remaining(s, c)));
    }
  }

  lemma EmptyNoBreak()
    ensures NoBreak([])
  {}

  lemma NoCREnd(s: seq<byte>)
    requires BreakAt(s) == |s|
    ensures NoBreak(s) && !EndsInCR(s)
  {
    assert s[..|s|] == s;
  }

  /** The proxy takes the piece as it is: a separated LF then ends one more, empty line. */
  lemma SpuriousLine(s: seq<byte>, c: seq<byte>)
    requires SplitsCRLF(s, c)
    ensures Rest(s) == []
    ensures LinesOf(Rest(s) + c) == [[]] + LinesOf(Rest(s) + Remaining(s, c))
    ensures Rest(Rest(s) + c) == Rest(Rest(s) + Remaining(s, c))
  {
    RestAfterCR(s);
    assert [] + c == c && [] + c[1..] == c[1..];
    assert c[..0] == [] && BreakAt(c) == 0 && Following(c) == c[1..];
  }

  lemma {:induction false} RestAfterCR(s: seq<byte>)
    requires EndsInCR(s)
    ensures Rest(s) == []
    decreases |s|
  {
    hide BreakAt;
    BreakAtMost(s, |s| - 1);
    if Following(s) != [] {
      FollowingEnd(s);
      RestAfterCR(Following(s));
    } else {
      NoBreakOneLine([]);
    }
  }

  // ---------- a whole run of reads ----------

  /** What the proxy holds after reading the pieces: the unfinished line. */
  function Pending(pieces: seq<seq<byte>>): (p: seq<byte>)
    ensures NoBreak(p)
  {
    if pieces == [] then []
    else Rest(Pending(pieces[..|pieces| - 1]) + pieces[|pieces| - 1])
  }

  /** The lines the proxy sees complete during the k-th read. */
  function LinesOfRead(pieces: seq<seq<byte>>, k: nat): seq<seq<byte>>
    requires k < |pieces|
  {
    LinesOf(Pending(pieces[..k]) + pieces[k])
  }

  /** All lines the proxy sees, in order. */
  function SeenLines(pieces: seq<seq<byte>>): seq<seq<byte>> {
    if pieces == [] then []
    else
      var n := |pieces| - 1;
      SeenLines(pieces[..n]) + LinesOf(Pending(pieces[..n]) + pieces[n])
  }

  /** Whether the k-th read begins with the LF of a CRLF begun before it. */
  predicate SplitAt(pieces: seq<seq<byte>>, k: nat)
    requires k < |pieces|
  {
    SplitsCRLF(Flatten(pieces[..k]), pieces[k])
  }

  function Splits(pieces: seq<seq<byte>>): nat {
    if pieces == [] then 0
    else
      var n := |pieces| - 1;
      Splits(pieces[..n]) + if SplitAt(pieces, n) then 1 else 0
  }

  predicate NoSplit(pieces: seq<seq<byte>>) { forall k | 0 <= k < |pieces| :: !SplitAt(pieces, k) }

  /** The lines of the text that the k-th read completes. */
  function TrueLinesOfRead(pieces: seq<seq<byte>>, k: nat): seq<seq<byte>>
    requires k < |pieces|
  {
    LinesOf(Rest(Flatten(pieces[..k])) + Remaining(Flatten(pieces[..k]), pieces[k]))
  }

  lemma {:induction false} PendingIsRest(pieces: seq<seq<byte>>)
    ensures Pending(pieces) == Rest(Flatten(pieces))
  {
    if pieces == [] {
      NoBreakOneLine([]);
    } else {
      var n := |pieces| - 1;
      var before, s, c := pieces[..n], Flatten(pieces[..n]), pieces[n];
      PendingIsRest(before);
      assert pieces == before + [c];
      FlattenSnoc(before, c);
      LinesAppend(s, c);
      if SplitsCRLF(s, c) { SpuriousLine(s, c); }
    }
  }

  /**
   Exactly what the cut costs: each read completes the lines of the text it
   completes, behind one empty line if and only if it begins inside a CRLF.
   */
  lemma ReadAddsOneEmptyLine(pieces: seq<seq<byte>>, k: nat)
    requires k < |pieces|
    ensures LinesOfRead(pieces, k)
         == (if SplitAt(pieces, k) then [[]] else []) + TrueLinesOfRead(pieces, k)
  {
    PendingIsRest(pieces[..k]);
    var s := Flatten(pieces[..k]);
    if SplitAt(pieces, k) {
      SpuriousLine(s, pieces[k]);
    } else {
      assert [] + TrueLinesOfRead(pieces, k) == TrueLinesOfRead(pieces, k);
    }
  }

  /** The lines completed by each read, one read after the other. */
  function TrueLines(pieces: seq<seq<byte>>): seq<seq<byte>> {
    if pieces == [] then []
    else TrueLines(pieces[..|pieces| - 1]) + TrueLinesOfRead(pieces, |pieces| - 1)
  }

  /** The lines completed by the reads are together the lines of the text. */
  lemma {:induction false} TrueLinesAreTheText(pieces: seq<seq<byte>>)
    ensures LinesOf(Flatten(pieces)) == TrueLines(pieces)
  {
    if pieces == [] {
      NoBreakOneLine([]);
    } else {
      var n := |pieces| - 1;
      TrueLinesAreTheText(pieces[..n]);
      TextOfReads(pieces);
    }
  }

  /** The last read completes its lines of the text. */
  lemma TextOfReads(pieces: seq<seq<byte>>)
    requires pieces != []
    ensures var n := |pieces| - 1;
      && Flatten(pieces) == Flatten(pieces[..n]) + pieces[n]
      && LinesOf(Flatten(pieces)) == LinesOf(Flatten(pieces[..n])) + TrueLinesOfRead(pieces, n)
  {
    var n := |pieces| - 1;
    SplitLast(pieces);
    FlattenSnoc(pieces[..n], pieces[n]);
    LinesAppend(Flatten(pieces[..n]), pieces[n]);
  }

  /** One empty line for each separated CRLF, and no other line more or less. */
  lemma {:induction false} SeenLineCount(pieces: seq<seq<byte>>)
    ensures |SeenLines(pieces)| == |LinesOf(Flatten(pieces))| + Splits(pieces)
  {
    hide LinesOf, Flatten, SplitAt, TrueLinesOfRead;
    if pieces == [] {
      NoLinesOfNothing();
    } else {
      var n := |pieces| - 1;
      SeenLineCount(pieces[..n]);
      ReadAddsOneEmptyLine(pieces, n);
      TextOfReads(pieces);
    }
  }

  lemma NoLinesOfNothing()
    ensures LinesOf(Flatten([])) == []
  {
    NoBreakOneLine([]);
  }

  lemma NoSplitPrefix(pieces: seq<seq<byte>>, n: nat)
    requires n <= |pieces| && NoSplit(pieces)
    ensures NoSplit(pieces[..n])
  {
    forall k | 0 <= k < n ensures !SplitAt(pieces[..n], k) {
      assert pieces[..n][..k] == pieces[..k];
      assert !SplitAt(pieces, k);
    }
  }

  /** Without a separated CRLF, the cut into reads does not show at all. */
  lemma {:induction false} SeenLinesAreTheText(pieces: seq<seq<byte>>)
    requires NoSplit(pieces)
    ensures SeenLines(pieces) == LinesOf(Flatten(pieces))
  {
    if pieces == [] {
      NoBreakOneLine([]);
    } else {
      var n := |pieces| - 1;
      var before := pieces[..n];
      NoSplitPrefix(pieces, n);
      SeenLinesAreTheText(before);
      PendingIsRest(before);
      assert !SplitAt(pieces, n);
      assert pieces == before + [pieces[n]];
      FlattenSnoc(before, pieces[n]);
      LinesAppend(Flatten(before), pieces[n]);
    }
  }

  /** The proxy sees the lines of the text if and only if no CRLF was separated. */
  lemma SeenLinesExactly(pieces: seq<seq<byte>>)
    ensures SeenLines(pieces) == LinesOf(Flatten(pieces)) <==> NoSplit(pieces)
  {
    if NoSplit(pieces) {
      SeenLinesAreTheText(pieces);
    } else {
      SeenLineCount(pieces);
      SomeSplit(pieces);
    }
  }

  lemma {:induction false} SomeSplit(pieces: seq<seq<byte>>)
    requires !NoSplit(pieces)
    ensures Splits(pieces) > 0
  {
    var n := |pieces| - 1;
    if !SplitAt(pieces, n) {
      var k :| 0 <= k < |pieces| && SplitAt(pieces, k);
      assert pieces[..n][..k] == pieces[..k];
      assert SplitAt(pieces[..n], k);
      SomeSplit(pieces[..n]);
    }
  }

  // ---------- the line limit ----------

  /** A line as delivered: one over the limit comes out empty. */
  function Clip(maxLine: nat, line: seq<byte>): seq<byte> { if |line| <= maxLine then line else [] }

  function ClipAll(maxLine: nat, lines: seq<seq<byte>>): (clipped: seq<seq<byte>>)
    ensures |clipped| == |lines|
    ensures forall k | 0 <= k < |lines| :: clipped[k] == Clip(maxLine, lines[k])
  {
    if lines == [] then [] else [Clip(maxLine, lines[0])] + ClipAll(maxLine, lines[1..])
  }

  function TooLong(maxLine: nat, lines: seq<seq<byte>>): nat {
    if lines == [] then 0
    else (if |lines[0]| > maxLine then 1 else 0) + TooLong(maxLine, lines[1..])
  }

  lemma ClipAppend(maxLine: nat, a: seq<seq<byte>>, b: seq<seq<byte>>)
    ensures ClipAll(maxLine, a + b) == ClipAll(maxLine, a) + ClipAll(maxLine, b)
  {}

  lemma {:induction false} TooLongAppend(maxLine: nat, a: seq<seq<byte>>, b: seq<seq<byte>>)
    ensures TooLong(maxLine, a + b) == TooLong(maxLine, a) + TooLong(maxLine, b)
  {
    if a == [] {
      assert a + b == b;
    } else {
      assert (a + b)[1..] == a[1..] + b;
      TooLongAppend(maxLine, a[1..], b);
    }
  }

  /** The lines that are not delivered as they are. */
  function LostLines(maxLine: nat, lines: seq<seq<byte>>): set<int> {
    set k | 0 <= k < |lines| && Clip(maxLine, lines[k]) != lines[k]
  }

  lemma ClipLoses(maxLine: nat, line: seq<byte>)
    ensures Clip(maxLine, line) != line <==> |line| > maxLine
    ensures |line| > maxLine ==> Clip(maxLine, line) == []
  {}

  lemma {:induction false} LostCount(maxLine: nat, lines: seq<seq<byte>>)
    ensures TooLong(maxLine, lines) == |LostLines(maxLine, lines)|
  {
    hide Clip;
    if lines == [] {
      assert LostLines(maxLine, lines) == {};
    } else {
      var n := |lines| - 1;
      var before := lines[..n];
      LostCount(maxLine, before);
      SplitLast(lines);
      TooLongAppend(maxLine, before, [lines[n]]);
      ClipLoses(maxLine, lines[n]);
      OneTooLong(maxLine, lines[n]);
      assert LostLines(maxLine, lines)
          == if |lines[n]| > maxLine then LostLines(maxLine, before) + {n} else LostLines(maxLine, before);
    }
  }

  lemma OneTooLong(maxLine: nat, line: seq<byte>)
    ensures TooLong(maxLine, [line]) == if |line| > maxLine then 1 else 0
  {
    var none: seq<seq<byte>> := [];
    assert [line][1..] == none;
  }

  /** Exactly the lines counted as too long are delivered otherwise, namely empty. */
  lemma TooLongAreLost(maxLine: nat, lines: seq<seq<byte>>)
    ensures TooLong(maxLine, lines) == |LostLines(maxLine, lines)|
    ensures forall k | 0 <= k < |lines| :: |lines[k]| > maxLine <==> k in LostLines(maxLine, lines)
    ensures forall k | k in LostLines(maxLine, lines) :: ClipAll(maxLine, lines)[k] == []
  {
    hide Clip, TooLong;
    LostCount(maxLine, lines);
    forall k | 0 <= k < |lines| { ClipLoses(maxLine, lines[k]); }
  }
}
