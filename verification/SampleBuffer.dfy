/**
 The bounded sample kept of a body: a prefix, and a ring holding its last bytes.
 Whatever the split into writes, it is a function of the bytes written.
 */
module SampleBuffer {
  import opened Bytes

  /** The size of the prefix and of the tail window. */
  function Half(max: int): int { if max / 2 <= 0 then max else max / 2 }

  /** The last `n` bytes of `s`, or all of it. */
  function Last(s: seq<byte>, n: nat): seq<byte> { if |s| <= n then s else s[|s| - n..] }

  /** The sample of a body `s`: all of it while it fits, else prefix, line feed, tail. */
  function Sample(max: int, s: seq<byte>): seq<byte> {
    if max <= 0 then []
    else
      var h := Half(max);
      if |s| <= Min(2 * h, max) then s
      else s[..h] + [LF] + Last(s[h..], h)
  }

  /** The first bytes only, as the plain sampler keeps them. */
  function Prefix(max: nat, s: seq<byte>): seq<byte> { s[..Min(max, |s|)] }

  // ---------- the ring ----------

  /** The ring's bytes, oldest first. */
  function Chronological(ring: seq<byte>, wpos: nat, full: bool): seq<byte>
    requires wpos <= |ring|
  {
    if full then ring[wpos..] + ring[..wpos] else ring[..wpos]
  }

  /** The ring holds the last `|ring|` bytes of `rest`, and is full once they fill it. */
  predicate RingHolds(ring: seq<byte>, wpos: nat, full: bool, rest: seq<byte>) {
    && wpos < |ring|
    && (full <==> |rest| >= |ring|)
    && Chronological(ring, wpos, full) == Last(rest, |ring|)
  }

  /** Overwriting `q` at `wpos`, which must not run past the end, shifts the window by `q`. */
  lemma RingAdvances(ring: seq<byte>, wpos: nat, full: bool, rest: seq<byte>, q: seq<byte>, ring': seq<byte>)
    requires RingHolds(ring, wpos, full, rest) && wpos + |q| <= |ring|
    requires ring' == ring[..wpos] + q + ring[wpos + |q|..]
    ensures var wrapped := wpos + |q| == |ring|;
            RingHolds(ring', if wrapped then 0 else wpos + |q|, full || wrapped, rest + q)
  {
    var n := wpos + |q|;
    var wrapped := n == |ring|;
    var wpos' := if wrapped then 0 else n;
    if full {
      assert Chronological(ring', wpos', true) == ring[n..] + ring[..wpos] + q;
      assert ring[n..] + ring[..wpos] == Chronological(ring, wpos, full)[|q|..];
    } else {
      assert rest == ring[..wpos];
      assert Chronological(ring', wpos', wrapped) == rest + q;
    }
  }

  lemma RingFits(ring: seq<byte>, wpos: nat, full: bool, rest: seq<byte>)
    requires RingHolds(ring, wpos, full, rest)
    ensures wpos < |ring|
  {}

  lemma RingRefilled(ring: seq<byte>, rest: seq<byte>, p: seq<byte>)
    requires 0 < |ring| <= |p| && ring == p[|p| - |ring|..]
    ensures RingHolds(ring, 0, true, rest + p)
  {
    assert Last(rest + p, |ring|) == ring;
  }

  lemma HalfFits(max: int)
    requires max > 0
    ensures 0 < Half(max) <= max
  {}

  lemma RingEmpty(ring: seq<byte>, rest: seq<byte>)
    requires ring != [] && rest == []
    ensures RingHolds(ring, 0, false, rest)
  {}

  class PrefixTailBuffer {
    const max: int
    var prefix: seq<byte>
    var tail: array?<byte>
    var wpos: nat
    var full: bool
    var total: nat
    ghost var written: seq<byte>

    ghost function Repr(): set<object> reads this { if tail == null then {this} else {this, tail} }

    ghost predicate Valid()
      reads this, tail
    {
      if max <= 0 then prefix == [] && tail == null && wpos == 0 && !full && total == 0
      else
        && total == |written|
        && prefix == written[..Min(Half(max), |written|)]
        && (tail == null ==> |written| <= Half(max) && wpos == 0 && !full)
        && (tail != null ==>
            tail.Length == Half(max) <= |written| && RingHolds(tail[..], wpos, full, written[Half(max)..]))
    }

    constructor (max: int)
      ensures Valid() && fresh(Repr()) && written == [] && this.max == max
    {
      this.max := max;
      prefix, tail, wpos, full, total := [], null, 0, false, 0;
      written := [];
    }

    method Write(p: seq<byte>)
      requires Valid()
      modifies Repr()
      ensures Valid() && fresh(Repr() - old(Repr()))
      ensures written == old(written) + p
    {
      hide RingHolds, Half;
      ghost var before := written;
      if max <= 0 {
        written := written + p;
        return;
      }
      total := total + |p|;
      var half := Half(max);
      HalfFits(max);
      var p' := p;
      if |prefix| < half {
        var need := Min(half - |prefix|, |p'|);
        prefix := prefix + p'[..need];
        p' := p'[need..];
        written := written + p[..need];
        if |p'| == 0 { return; }
      }
      assert written + p' == before + p;
      if tail == null {
        tail := new byte[half](_ => 0);
        RingEmpty(tail[..], written[half..]);
      }
      WriteTail(p');
      assert prefix == written[..half];
    }

    /** The part of a write behind the prefix: it goes into the ring. */
    method WriteTail(p: seq<byte>)
      requires max > 0 && tail != null && tail.Length == Half(max) <= |written|
      requires RingHolds(tail[..], wpos, full, written[Half(max)..])
      modifies this`wpos, this`full, this`written, tail
      ensures written == old(written) + p
      ensures RingHolds(tail[..], wpos, full, written[Half(max)..])
    {
      hide RingHolds, Half;
      var half := tail.Length;
      ghost var rest := written[half..];
      assert (written + p)[half..] == rest + p;
      if |p| >= half {
        RingFits(tail[..], wpos, full, rest);
        forall k | 0 <= k < half { tail[k] := p[|p| - half + k]; }
        assert tail[..] == p[|p| - half..];
        wpos, full := 0, true;
        RingRefilled(tail[..], rest, p);
      } else {
        FillRing(p, rest);
      }
      written := written + p;
    }

    method FillRing(p: seq<byte>, ghost rest: seq<byte>)
      requires tail != null && RingHolds(tail[..], wpos, full, rest)
      modifies this`wpos, this`full, tail
      ensures RingHolds(tail[..], wpos, full, rest + p)
    {
      hide RingHolds;
      var half := tail.Length;
      ghost var done := rest;
      var p' := p;
      while |p'| > 0
        invariant rest + p == done + p'
        invariant RingHolds(tail[..], wpos, full, done)
        decreases |p'|
      {
        ghost var ring := tail[..];
        RingFits(ring, wpos, full, done);
        var n := Min(half - wpos, |p'|);
        forall k | 0 <= k < n { tail[wpos + k] := p'[k]; }
        assert tail[..] == ring[..wpos] + p'[..n] + ring[wpos + n..];
        RingAdvances(ring, wpos, full, done, p'[..n], tail[..]);
        wpos := wpos + n;
        if wpos == half {
          wpos, full := 0, true;
        }
        ConcatAssociates(done, p'[..n], p'[n..]);
        assert p'[..n] + p'[n..] == p';
        done := done + p'[..n];
        p' := p'[n..];
      }
      ConcatEmpty(done);
    }

    function TailLen(): nat
      reads this
    {
      if full && tail != null then tail.Length else wpos
    }

    /** The tail bytes behind the oldest `skip`, appended to `dst`. */
    method AppendTail(dst: seq<byte>, skip: nat) returns (out: seq<byte>)
      requires Valid()
      ensures out == dst + if tail == null || skip >= TailLen() then []
                           else Chronological(tail[..], wpos, full)[skip..]
    {
      if tail == null { return dst + []; }
      var valid := TailLen();
      if skip >= valid { return dst + []; }
      if !full { return dst + tail[skip..wpos]; }
      var half := tail.Length;
      var firstLen := half - wpos;
      ghost var chron := Chronological(tail[..], wpos, full);
      if skip < firstLen {
        out := dst + tail[wpos + skip..];
        out := out + tail[..wpos];
        assert chron[skip..] == tail[wpos + skip..] + tail[..wpos];
      } else {
        out := dst + tail[skip - firstLen..wpos];
        assert chron[skip..] == tail[skip - firstLen..wpos];
      }
    }

    method Bytes() returns (out: seq<byte>)
      requires Valid()
      ensures out == Sample(max, written)
    {
      var tailLen := TailLen();
      if tailLen == 0 { return prefix; }
      if total <= |prefix| { return prefix; }
      assert written == prefix + written[Half(max)..];
      if total <= max && |prefix| + tailLen >= total {
        var overlap := |prefix| + tailLen - total;
        out := AppendTail(prefix, overlap);
        return;
      }
      out := AppendTail(prefix + [LF], 0);
    }

    function Overflow(): bool
      reads this
    {
      total > max
    }
  }

  /** The plain sampler: the first `max` bytes, and whether more came. */
  class LimitedBuffer {
    const max: nat
    var buf: seq<byte>
    var overflow: bool
    ghost var written: seq<byte>

    ghost predicate Valid() reads this {
      buf == Prefix(max, written) && overflow == (|written| > max)
    }

    constructor (max: nat)
      ensures Valid() && written == [] && this.max == max
    {
      this.max := max;
      buf, overflow, written := [], false, [];
    }

    method Write(p: seq<byte>)
      requires Valid()
      modifies this
      ensures Valid() && written == old(written) + p
    {
      written := written + p;
      if overflow { return; }
      var need := max - |buf|;
      var p' := p;
      if |p'| > need {
        p' := p'[..need];
        overflow := true;
      }
      buf := buf + p';
    }
  }

  // ---------- what the sample loses ----------

  /**
   The sample is the body exactly when the body fits, or when it is one byte too
   long for the two windows and the byte between them happens to be a line feed.
   */
  lemma LosslessExactly(max: int, s: seq<byte>)
    requires max > 0
    ensures Sample(max, s) == s
       <==> |s| <= Min(2 * Half(max), max) || (|s| == 2 * Half(max) + 1 && s[Half(max)] == LF)
  {
    var h := Half(max);
    if |s| > Min(2 * h, max) {
      var sample := s[..h] + [LF] + Last(s[h..], h);
      assert sample[h] == LF;
      if |s| == 2 * h + 1 {
        assert Last(s[h..], h) == s[h + 1..];
        if s[h] == LF { assert s == s[..h] + [s[h]] + s[h + 1..]; }
      } else {
        assert |sample| != |s|;
      }
    }
  }

  /** With an even limit, a sample that reports no overflow is the whole body. */
  lemma EvenLimitKeepsAll(max: int, s: seq<byte>)
    requires max > 0 && |s| <= max
    ensures max % 2 == 0 || max == 1 || |s| < max ==> Sample(max, s) == s
    ensures max % 2 == 1 && max > 1 && |s| == max ==>
              (Sample(max, s) == s <==> s[max / 2] == LF)
  {
    LosslessExactly(max, s);
  }

  /**
   A buffer that denies an overflow has lost something exactly when a full odd limit cost it a middle byte, or when its
   limit is 0 and it keeps nothing at all; the proxy never builds one with that limit.
   */
  lemma SilentLossExactly(b: PrefixTailBuffer)
    requires b.Valid()
    ensures !b.Overflow() && Sample(b.max, b.written) != b.written
       <==> (b.max % 2 == 1 && b.max > 1 && |b.written| == b.max && b.written[b.max / 2] != LF)
            || (b.max == 0 && b.written != [])
  {
    if 0 < b.max && |b.written| <= b.max { EvenLimitKeepsAll(b.max, b.written); }
  }

  /** Three bytes written to a buffer for three: the middle one is lost and no overflow is reported. */
  lemma OddLimitLosesAByte(b: PrefixTailBuffer)
    requires b.Valid() && b.max == 3 && b.written == [65, 66, 67]
    ensures !b.Overflow() && Sample(b.max, b.written) == [65, LF, 67] != b.written
  {
    assert Last([66, 67], 1) == [67];
    assert [65, 66, 67][1..] == [66, 67] && [65, 66, 67][..1] == [65];
  }

  /** Prefix and tail always agree with the body at its two ends, and the sample stays bounded. */
  lemma SampleEnds(max: int, s: seq<byte>)
    requires max > 0
    ensures var h := Half(max); var sample := Sample(max, s);
            && |sample| <= 2 * h + 1
            && (|s| >= h ==> |sample| >= h && sample[..h] == s[..h])
            && (|s| >= 2 * h ==> |sample| >= h && sample[|sample| - h..] == s[|s| - h..])
  {
    var h := Half(max);
    if |s| >= 2 * h { assert Last(s[h..], h) == s[|s| - h..]; }
  }
}
