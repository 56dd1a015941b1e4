/**
 How the proxy looks at a request body without changing it: it reads far enough
 to find the model name, then replays what it read in front of the rest, counting
 and sampling the bytes as they pass.
 */
module BodyReader {
  import opened Bytes
  import opened JsonScan
  import opened SampleBuffer

  /** The bytes of `model`. */
  const MODEL_KEY: seq<byte> := [109, 111, 100, 101, 108]

  /** The model named by a body: its JSON member, or what a multipart form gives. */
  function ExtractModel(multipart: seq<byte> -> seq<byte>, body: seq<byte>): seq<byte> {
    match TopString(body, MODEL_KEY)
    case Some(model) => model
    case None => multipart(body)
  }

  function InitialBytes(configured: int): nat { if configured <= 0 then 4096 else configured }

  /** How much of the body may be read in search of the model. */
  function ScanLimit(initial: nat, maxBytes: int): nat {
    Max(initial, if maxBytes <= initial then 65536 else maxBytes)
  }

  /** A finite reader's next `n` bytes, fewer only at its end. */
  function Window(src: seq<byte>, n: nat): seq<byte> { src[..Min(n, |src|)] }

  /**
   Stopping early is safe: a JSON model found in any prefix is the model of the
   whole body, so the scan names the model that reading everything would name.
   */
  lemma EarlyStopAgrees(multipart: seq<byte> -> seq<byte>, prefix: seq<byte>, body: seq<byte>)
    requires prefix <= body
    requires multipart(prefix) == [] || TopString(prefix, MODEL_KEY).Some?
    requires ExtractModel(multipart, prefix) != [] || prefix == body
    ensures ExtractModel(multipart, prefix) == ExtractModel(multipart, body)
  {
    if prefix != body {
      TopStringStable(prefix, body[|prefix|..], MODEL_KEY);
      assert prefix + body[|prefix|..] == body;
    }
  }

  /** Where the k-th read of the extended scan begins. */
  function ReadBoundary(initial: nat, k: nat): nat { initial + 4096 * k }

  /** No read boundary before `end` already names a model. */
  ghost predicate NoModelBefore(multipart: seq<byte> -> seq<byte>, src: seq<byte>, initial: nat, end: nat) {
    forall k: nat | ReadBoundary(initial, k) < end :: ExtractModel(multipart, Window(src, ReadBoundary(initial, k))) == []
  }

  /** A multipart body can give a model that more of it would change; a JSON model is final. */
  predicate ModelFinal(multipart: seq<byte> -> seq<byte>, prefix: seq<byte>) {
    multipart(prefix) == [] || TopString(prefix, MODEL_KEY).Some?
  }

  /**
   Reads the start of a body.  With the extended scan it goes on, in pieces of
   4096 bytes, until a model is found, the limit is reached or the body ends: to the
   first read boundary that names a model, which is the model of all it may read.
   */
  method ReadBodyPrefix(src: seq<byte>, configured: int, maxBytes: int, extended: bool,
                        multipart: seq<byte> -> seq<byte>) returns (prefix: seq<byte>)
    ensures prefix <= src && Window(src, InitialBytes(configured)) <= prefix
    ensures |prefix| <= ScanLimit(InitialBytes(configured), maxBytes)
    ensures Window(src, if configured > 0 then configured else 4096) <= prefix
    ensures configured <= 0 && maxBytes <= 0 ==> |prefix| <= 65536
    ensures 0 < configured < maxBytes ==> |prefix| <= maxBytes
    ensures 0 < configured < maxBytes && extended && ExtractModel(multipart, prefix) == [] ==> prefix == Window(src, maxBytes)
    ensures !extended ==> prefix == Window(src, InitialBytes(configured))
    ensures extended && ExtractModel(multipart, prefix) == [] ==>
              prefix == Window(src, ScanLimit(InitialBytes(configured), maxBytes))
    ensures NoModelBefore(multipart, src, InitialBytes(configured), |prefix|)
    ensures exists k: nat :: prefix == Window(src, Min(ReadBoundary(InitialBytes(configured), k),
                                                       ScanLimit(InitialBytes(configured), maxBytes)))
    ensures extended && ModelFinal(multipart, prefix) ==>
              ExtractModel(multipart, prefix)
              == ExtractModel(multipart, Window(src, ScanLimit(InitialBytes(configured), maxBytes)))
  {
    hide ExtractModel, NoModelBefore, Window, ModelFinal, ReadBoundary;
    StartsBefore(multipart, src, InitialBytes(configured));
    var initial := InitialBytes(configured);
    ghost var limit := ScanLimit(initial, maxBytes);
    ghost var k: nat := 0;
    assert ReadBoundary(initial, 0) == initial by { FirstBoundary(initial); }
    WindowGrows(src, initial, limit);
    prefix := Window(src, initial);
    if extended && ExtractModel(multipart, prefix) == [] {
      var max := if maxBytes <= initial then 65536 else maxBytes;
      if initial < max { prefix, k := ScanOn(src, initial, max, multipart); }
    }
    WindowGrows(src, initial, Min(ReadBoundary(initial, k), limit));
    WindowGrows(src, Min(ReadBoundary(initial, k), limit), limit);
    if extended { ScanAgrees(multipart, src, prefix, limit); }
  }

  /** The extended scan, from a window without a model. */
  method ScanOn(src: seq<byte>, initial: nat, max: nat, multipart: seq<byte> -> seq<byte>)
    returns (prefix: seq<byte>, ghost k: nat)
    requires initial < max && ExtractModel(multipart, Window(src, initial)) == []
    ensures initial <= ReadBoundary(initial, k) && prefix == Window(src, Min(ReadBoundary(initial, k), max))
    ensures NoModelBefore(multipart, src, initial, |prefix|)
    ensures ExtractModel(multipart, prefix) == [] ==> prefix == Window(src, max)
  {
    hide ExtractModel, NoModelBefore, Window;
    StartsBefore(multipart, src, initial);
    WindowGrows(src, initial, initial);
    prefix, k := Window(src, initial), 0;
    ghost var end := initial;
    while |prefix| < max
      invariant initial <= end == Min(ReadBoundary(initial, k), max) && initial <= ReadBoundary(initial, k)
      invariant prefix == Window(src, end) && |prefix| == Min(end, |src|)
      invariant NoModelBefore(multipart, src, initial, |prefix|) && ExtractModel(multipart, prefix) == []
      decreases max - |prefix|
    {
      var readSize := Min(4096, max - |prefix|);
      var chunk := Window(src[|prefix|..], readSize);
      WindowGrows(src[|prefix|..], 0, readSize);
      if |chunk| > 0 {
        NextWindow(src, end, readSize);
        OneMoreBoundary(multipart, src, initial, k, |prefix|, |chunk|);
        prefix, k, end := prefix + chunk, k + 1, end + readSize;
        if ExtractModel(multipart, prefix) != [] { return; }
      }
      if |chunk| == 0 {
        WindowGrows(src, end, max);
        return;
      }
    }
  }

  lemma FirstBoundary(initial: nat)
    ensures ReadBoundary(initial, 0) == initial
  {}

  lemma WindowGrows(src: seq<byte>, m: nat, n: nat)
    requires m <= n
    ensures Window(src, m) <= Window(src, n) <= src && |Window(src, n)| == Min(n, |src|)
    ensures Window(src, n) == Window(src, Min(n, |src|)) && (n >= |src| ==> Window(src, n) == src)
  {}

  lemma StartsBefore(multipart: seq<byte> -> seq<byte>, src: seq<byte>, initial: nat)
    ensures NoModelBefore(multipart, src, initial, |Window(src, initial)|)
  {}

  lemma NextWindow(src: seq<byte>, n: nat, more: nat)
    requires n < |src|
    ensures Window(src, n) + Window(src[n..], more) == Window(src, n + more) && |Window(src, n)| == n
    ensures |Window(src[n..], more)| == Min(more, |src| - n)
  {}

  lemma OneMoreBoundary(multipart: seq<byte> -> seq<byte>, src: seq<byte>, initial: nat, k: nat, end: nat, more: nat)
    requires NoModelBefore(multipart, src, initial, end) && more <= 4096
    requires ExtractModel(multipart, Window(src, end)) == [] && end == ReadBoundary(initial, k)
    ensures NoModelBefore(multipart, src, initial, end + more)
  {
    hide ExtractModel, Window;
    forall j: nat | ReadBoundary(initial, j) < end + more
      ensures ExtractModel(multipart, Window(src, ReadBoundary(initial, j))) == []
    {
      assert j <= k;
    }
  }

  lemma ScanAgrees(multipart: seq<byte> -> seq<byte>, src: seq<byte>, prefix: seq<byte>, limit: nat)
    requires prefix <= Window(src, limit) && (ExtractModel(multipart, prefix) != [] || prefix == Window(src, limit))
    ensures ModelFinal(multipart, prefix) ==>
              ExtractModel(multipart, prefix) == ExtractModel(multipart, Window(src, limit))
  {
    hide ExtractModel;
    if ModelFinal(multipart, prefix) { EarlyStopAgrees(multipart, prefix, Window(src, limit)); }
  }

  /** The body as the upstream request reads it: the prefix again, then the rest. */
  class ReplayReader {
    const prefix: seq<byte>
    var offset: nat
    var src: seq<byte>

    predicate Valid() reads this { offset <= |prefix| }

    /** What is still to be read. */
    function Left(): seq<byte> reads this requires Valid() { prefix[offset..] + src }

    constructor (prefix: seq<byte>, src: seq<byte>)
      ensures Valid() && Left() == prefix + src
    {
      this.prefix, this.offset, this.src := prefix, 0, src;
    }

    /** `ready` is how many bytes the source would hand out now. */
    method Read(room: nat, ready: nat) returns (p: seq<byte>)
      requires Valid()
      modifies this
      ensures Valid() && |p| <= room && old(Left()) == p + Left()
      ensures room > 0 && ready > 0 && p == [] ==> Left() == []
    {
      if offset < |prefix| {
        var n := Min(room, |prefix| - offset);
        p := prefix[offset..offset + n];
        offset := offset + n;
        return;
      }
      var n := Min(Min(room, ready), |src|);
      p := src[..n];
      src := src[n..];
    }
  }

  /**
   Counts the bytes that pass and shows each of them to the sampling probe.  At
   any time what was forwarded and what is left make up the original `body`, the
   count is exact, and the probe has been written precisely what was forwarded.
   */
  class CountingReader {
    const r: ReplayReader
    const probe: PrefixTailBuffer?
    var bytesRead: nat
    ghost const body: seq<byte>
    ghost var seen: seq<byte>

    ghost function Repr(): set<object>
      reads this, probe
    {
      {this, r} + if probe == null then {} else probe.Repr()
    }

    ghost predicate Valid()
      reads this, r, probe, if probe == null then {} else probe.Repr()
    {
      && r.Valid() && bytesRead == |seen| && seen + r.Left() == body
      && (probe != null ==> probe.Valid() && probe.written == seen && {this, r} !! probe.Repr())
    }

    constructor (r: ReplayReader, probe: PrefixTailBuffer?)
      requires r.Valid()
      requires probe != null ==> probe.Valid() && probe.written == [] && r !in probe.Repr()
      ensures Valid() && this.r == r && this.probe == probe && seen == [] && body == r.Left()
    {
      this.r, this.probe, bytesRead, seen := r, probe, 0, [];
      body := r.Left();
    }

    method Read(room: nat, ready: nat) returns (p: seq<byte>)
      requires Valid()
      modifies Repr()
      ensures Valid() && |p| <= room && fresh(Repr() - old(Repr()))
      ensures seen == old(seen) + p
    {
      hide PrefixTailBuffer.Valid;
      p := r.Read(room, ready);
      ConcatAssociates(seen, p, r.Left());
      hide ReplayReader.Left, ReplayReader.Valid;
      bytesRead := bytesRead + |p|;
      if |p| > 0 && probe != null {
        probe.Write(p);
      }
      seen := seen + p;
    }
  }
}
