/**
 * Request framing on a keep-alive connection (sections 6.3 and 9.3.2 of RFC 9112): header blocks, bodies of
 * declared length read by a handler and drained by the connection, and the pipelined requests behind them.
 */
module HttpConnection {
  import opened Wrappers
  import opened Bytes
  import opened ServerConfig
  import opened ConnectionIO
  import opened Hex

  /** The most bytes past a header block or a body that a read may have left in the buffer. */
  const READ_AHEAD := SINGLE_READ_BYTES - 1

  /** The size of the buffer the handlers read bodies with. */
  const HANDLER_BUFFER := 4096

  // ---------------------------------------------------------------- the byte stream as requests

  /** Empty lines before a request line are ignored. */
  function SkipEmptyLines(u: seq<byte>): seq<byte> {
    if |u| >= 2 && u[..2] == CRLF then SkipEmptyLines(u[2..]) else u
  }

  datatype Request = Request(header: seq<byte>, body: seq<byte>)

  /** The byte stream begins with a whole request. */
  predicate FirstComplete(u: seq<byte>, lengthOf: seq<byte> -> nat) {
    var v := SkipEmptyLines(u);
    var i := Find(v, CRLF2);
    i < |v| && i + 4 + lengthOf(v[..i]) <= |v|
  }

  function FirstRequest(u: seq<byte>, lengthOf: seq<byte> -> nat): Request
    requires FirstComplete(u, lengthOf)
  {
    var v := SkipEmptyLines(u);
    var i := Find(v, CRLF2);
    Request(v[..i], v[i + 4..][..lengthOf(v[..i])])
  }

  function AfterFirst(u: seq<byte>, lengthOf: seq<byte> -> nat): seq<byte>
    requires FirstComplete(u, lengthOf)
  {
    var v := SkipEmptyLines(u);
    var i := Find(v, CRLF2);
    v[i + 4..][lengthOf(v[..i])..]
  }

  /** The first `n` requests in a byte stream and what follows them, when the stream has that many. */
  function SplitRequests(u: seq<byte>, n: nat, lengthOf: seq<byte> -> nat): (r: Option<(seq<Request>, seq<byte>)>)
    ensures r.Some? ==> |r.value.0| == n
    decreases n
  {
    if n == 0 then Some(([], u))
    else if !FirstComplete(u, lengthOf) then None
    else match SplitRequests(AfterFirst(u, lengthOf), n - 1, lengthOf)
      case None => None
      case Some((requests, rest)) => Some(([FirstRequest(u, lengthOf)] + requests, rest))
  }

  lemma {:induction false} SkipPrefix(b: seq<byte>, rest: seq<byte>)
    requires |b| >= 2 && b[..2] == CRLF
    ensures SkipEmptyLines(b + rest) == SkipEmptyLines(b[2..] + rest)
  {
    assert (b + rest)[..2] == b[..2];
    assert (b + rest)[2..] == b[2..] + rest;
  }

  /** No end-of-headers mark in `b` has more than `READ_AHEAD` bytes after it. */
  ghost predicate ShortTail(b: seq<byte>) {
    forall i: nat :: OccursAt(b, CRLF2, i) ==> |b| - (i + 4) <= READ_AHEAD
  }

  lemma ShortTailDrop(b: seq<byte>, k: nat)
    requires ShortTail(b) && k <= |b|
    ensures ShortTail(b[k..])
  {
    forall i: nat | OccursAt(b[k..], CRLF2, i) ensures |b[k..]| - (i + 4) <= READ_AHEAD {
      OccursAfterDrop(b, CRLF2, k, i);
    }
  }

  lemma ShortTailGrow(b: seq<byte>, data: seq<byte>)
    requires Find(b, CRLF2) == |b| && |data| <= SINGLE_READ_BYTES
    ensures ShortTail(b + data)
  {
    forall i: nat | OccursAt(b + data, CRLF2, i) ensures |b + data| - (i + 4) <= READ_AHEAD {
      if i + 4 <= |b| { OccursInPrefix(b, data, CRLF2, i); }
    }
  }

  method StripEmptyLines(io: ConnectionIO)
    requires io.Valid() && ShortTail(io.Buffered())
    modifies io
    ensures io.Valid() && ShortTail(io.Buffered()) && |io.Buffered()| <= |old(io.Buffered())|
    ensures io.incoming == old(io.incoming) && io.spurious == old(io.spurious)
    ensures SkipEmptyLines(io.Unread()) == SkipEmptyLines(old(io.Unread()))
    ensures |io.Buffered()| >= 2 ==> io.Buffered()[..2] != CRLF
  {
    while |io.Buffered()| >= 2 && io.Buffered()[0] == CR && io.Buffered()[1] == LF
      invariant io.Valid() && ShortTail(io.Buffered()) && |io.Buffered()| <= |old(io.Buffered())|
      invariant io.incoming == old(io.incoming) && io.spurious == old(io.spurious)
      invariant SkipEmptyLines(io.Unread()) == SkipEmptyLines(old(io.Unread()))
      decreases |io.Buffered()|
    {
      ghost var b := io.Buffered();
      assert b[..2] == [b[0], b[1]] == CRLF;
      SkipPrefix(b, io.incoming);
      ShortTailDrop(b, 2);
      io.EraseFromReadBuffer(2);
    }
  }

  /** Reads up to and including the blank line that ends the header block. */
  method ReadHeader(io: ConnectionIO) returns (header: seq<byte>, failure: Option<ReadResult>)
    requires io.Valid() && |io.Buffered()| <= READ_AHEAD
    modifies io
    ensures io.Valid() && io.spurious <= old(io.spurious)
    ensures failure.None? ==>
              var v := SkipEmptyLines(old(io.Unread()));
              && Find(v, CRLF2) < |v| && header == v[..Find(v, CRLF2)] && io.Unread() == v[Find(v, CRLF2) + 4..]
              && |io.Buffered()| <= READ_AHEAD
    ensures failure.Some? && io.reliable ==>
              var v := SkipEmptyLines(old(io.Unread()));
              || (failure.value.TIMED_OUT? && Find(v, CRLF2) == |v|)
              || (failure.value.BUFFER_LIMIT_EXCEEDED? && Find(v, CRLF2) >= MAX_HEADER_BYTES - SINGLE_READ_BYTES - 3)
  {
    while true
      invariant io.Valid() && ShortTail(io.Buffered()) && io.spurious <= old(io.spurious)
      invariant SkipEmptyLines(io.Unread()) == SkipEmptyLines(old(io.Unread()))
      decreases |io.incoming|, io.spurious
    {
      StripEmptyLines(io);
      ghost var b, u := io.Buffered(), io.Unread();
      var i := Find(io.Buffered(), CRLF2);
      if i < |io.Buffered()| {
        FoundMark(b, io.incoming);
        header := io.Buffered()[..i];
        io.EraseFromReadBuffer(i + 4);
        return header, None;
      }
      var r := io.Read(SINGLE_READ_BYTES, MAX_HEADER_BYTES);
      if !r.DATA? && !r.WOULD_BLOCK? {
        assert u == b + u[|b|..];
        MissingMark(b, u[|b|..]);
        return [], Some(r);
      }
      if r.DATA? {
        assert io.Buffered() == b + io.Buffered()[|b|..];
        ShortTailGrow(b, io.Buffered()[|b|..]);
      }
    }
  }

  /** The mark in a stripped buffer is the stream's first. */
  lemma FoundMark(b: seq<byte>, rest: seq<byte>)
    requires Find(b, CRLF2) < |b| && (|b| >= 2 ==> b[..2] != CRLF)
    ensures SkipEmptyLines(b + rest) == b + rest && Find(b + rest, CRLF2) == Find(b, CRLF2)
    ensures b[..Find(b, CRLF2)] == (b + rest)[..Find(b, CRLF2)]
  {
    assert (b + rest)[..2] == b[..2];
    FindExtends(b, rest, CRLF2);
  }

  /** A stripped buffer without the mark: wherever the stream's first mark is, it is not before the buffer's end. */
  lemma MissingMark(b: seq<byte>, rest: seq<byte>)
    requires Find(b, CRLF2) == |b|
    requires |b| >= 2 ==> b[..2] != CRLF
    ensures var v := SkipEmptyLines(b + rest);
            && (rest == [] ==> Find(v, CRLF2) == |v|)
            && (|b| >= 2 ==> Find(v, CRLF2) + 4 > |b|)
  {
    assert |b| >= 2 ==> (b + rest)[..2] == b[..2];
    FindAfterMiss(b, rest, CRLF2);
    if rest == [] { assert b + rest == b; }
  }

  // ---------------------------------------------------------------- bodies of declared length

  /** `BodyStream` over the Content-Length callbacks of one request. */
  class BodyStream {
    const io: ConnectionIO
    var remaining: nat
    var exhausted: bool

    constructor (io: ConnectionIO, contentLength: nat)
      requires contentLength < SIZE_T
      ensures this.io == io && remaining == contentLength && !exhausted
    { this.io, remaining, exhausted := io, contentLength, false; }

    /** The stream stopped early: a read returned nothing although bytes of the body were still due. */
    predicate CutShort() reads this { exhausted && remaining > 0 }

    /** The body callback: the caller's buffer if that many bytes are there, else the rest of the body, else what a read brings. */
    method ReadContent(buf: array<byte>, due: nat) returns (n: nat, failure: Option<ReadResult>)
      requires io.Valid() && buf.Length > 0
      modifies io, buf
      ensures io.Valid() && io.spurious <= old(io.spurious)
      ensures failure.None? ==> n <= buf.Length && n <= |old(io.Unread())|
      ensures failure.None? ==> buf[..n] == old(io.Unread())[..n] && io.Unread() == old(io.Unread())[n..]
      // The first branch does not look at how much of the body is due.
      ensures failure.None? ==> (n > due <==> |old(io.Buffered())| >= buf.Length > due)
      ensures failure.None? && n == 0 && due > 0 ==> io.spurious < old(io.spurious)
      ensures failure.None? && |old(io.Buffered())| <= READ_AHEAD ==> |io.Buffered()| <= READ_AHEAD
      ensures failure.Some? && io.reliable ==>
                || (failure.value.TIMED_OUT? && |old(io.Unread())| < due)
                || (failure.value.BUFFER_LIMIT_EXCEEDED? && |old(io.Buffered())| + SINGLE_READ_BYTES >= MAX_CONTENT_LENGTH)
    {
      var capped;
      if |io.Buffered()| >= buf.Length {
        capped := buf.Length;
      } else if |io.Buffered()| >= due {
        capped := due;
      } else {
        var r := io.Read(SINGLE_READ_BYTES, MAX_CONTENT_LENGTH);
        if !r.DATA? && !r.WOULD_BLOCK? { return 0, Some(r); }
        capped := Min(|io.Buffered()|, Min(buf.Length, due));
      }
      n := capped;
      var data := io.Buffered()[..n];
      assert data == io.Unread()[..n];
      forall j | 0 <= j < n { buf[j] := data[j]; }
      assert buf[..n] == data;
      io.EraseFromReadBuffer(n);
      return n, None;
    }

    /** `BodyStream::read`, with the `size_t` subtraction the source has. */
    method Read(buf: array<byte>) returns (n: nat, failure: Option<ReadResult>)
      requires io.Valid() && buf.Length > 0
      modifies this, io, buf
      ensures io.Valid() && io.spurious <= old(io.spurious)
      ensures old(exhausted) ==> n == 0 && failure.None? && remaining == old(remaining) && exhausted
                                 && io.Unread() == old(io.Unread()) && io.Buffered() == old(io.Buffered())
      ensures failure.None? ==> n <= buf.Length && n <= |old(io.Unread())|
      ensures failure.None? ==> buf[..n] == old(io.Unread())[..n] && io.Unread() == old(io.Unread())[n..]
      ensures failure.None? && |old(io.Buffered())| <= READ_AHEAD ==> |io.Buffered()| <= READ_AHEAD
      ensures failure.None? && !old(exhausted) ==>
                && (n > old(remaining) <==> |old(io.Buffered())| >= buf.Length > old(remaining))
                && remaining == (if n <= old(remaining) then old(remaining) - n else (old(remaining) - n) % SIZE_T)
                && (exhausted <==> n == 0 || remaining == 0)
      ensures failure.None? && !old(exhausted) && CutShort() ==> io.spurious < old(io.spurious)
      ensures failure.Some? && io.reliable ==>
                || (failure.value.TIMED_OUT? && |old(io.Unread())| < old(remaining))
                || (failure.value.BUFFER_LIMIT_EXCEEDED? && |old(io.Buffered())| + SINGLE_READ_BYTES >= MAX_CONTENT_LENGTH)
    {
      if exhausted { return 0, None; }
      n, failure := ReadContent(buf, remaining);
      if failure.Some? { return; }
      remaining := if n <= remaining then remaining - n else (remaining - n) % SIZE_T;
      if n == 0 || remaining == 0 { exhausted := true; }
    }

    /** Discards what the handler left of the body. */
    method Drain() returns (failure: Option<ReadResult>)
      requires io.Valid() && |io.Buffered()| <= READ_AHEAD
      modifies io
      ensures io.Valid() && io.spurious <= old(io.spurious)
      ensures failure.None? && !exhausted ==> remaining <= |old(io.Unread())| && io.Unread() == old(io.Unread())[remaining..]
      ensures failure.None? && exhausted ==> io.Unread() == old(io.Unread())
      ensures failure.None? ==> |io.Buffered()| <= READ_AHEAD
      ensures failure.Some? && io.reliable ==>
                || (failure.value.TIMED_OUT? && |old(io.Unread())| < remaining)
                || (failure.value.BUFFER_LIMIT_EXCEEDED? && remaining > MAX_CONTENT_LENGTH - SINGLE_READ_BYTES)
    {
      if exhausted { return None; }
      while |io.Buffered()| < remaining
        invariant io.Valid() && io.Unread() == old(io.Unread()) && io.spurious <= old(io.spurious)
        invariant |io.Buffered()| <= READ_AHEAD || |io.Buffered()| < remaining + SINGLE_READ_BYTES
        modifies io
        decreases |io.incoming|, io.spurious
      {
        var r := io.Read(SINGLE_READ_BYTES, MAX_CONTENT_LENGTH);
        if !r.DATA? && !r.WOULD_BLOCK? { return Some(r); }
      }
      io.EraseFromReadBuffer(remaining);
      return None;
    }
  }

  /**
   * A handler that makes `readCount` reads of 4096 bytes, then the connection's drain. The handler sees a prefix of
   * the declared body, and the next unread byte is the first after it, exactly when no read was cut short.
   */
  method HandleBody(io: ConnectionIO, contentLength: nat, readCount: nat)
    returns (seen: seq<byte>, cutShort: bool, failure: Option<ReadResult>)
    requires io.Valid() && |io.Buffered()| <= READ_AHEAD && contentLength < SIZE_T
    modifies io
    ensures io.Valid() && io.spurious <= old(io.spurious)
    ensures failure.None? ==> |seen| <= contentLength && seen <= old(io.Unread()) && |io.Buffered()| <= READ_AHEAD
    ensures failure.None? ==>
              (cutShort <==> contentLength > |old(io.Unread())| || io.Unread() != old(io.Unread())[contentLength..])
    ensures cutShort ==> io.spurious < old(io.spurious)
    ensures failure.None? && cutShort ==> |seen| < contentLength && io.Unread() == old(io.Unread())[|seen|..]
    ensures failure.Some? && io.reliable ==>
              || (failure.value.TIMED_OUT? && |old(io.Unread())| < contentLength)
              || (failure.value.BUFFER_LIMIT_EXCEEDED? && contentLength > MAX_CONTENT_LENGTH - SINGLE_READ_BYTES)
  {
    var body := new BodyStream(io, contentLength);
    seen, cutShort := [], false;
    ghost var u := io.Unread();
    for i := 0 to readCount
      invariant body.io == io && io.Valid() && io.spurious <= old(io.spurious) && |io.Buffered()| <= READ_AHEAD
      invariant |seen| <= |u| && seen == u[..|seen|] && io.Unread() == u[|seen|..]
      invariant |seen| + body.remaining == contentLength
      invariant body.exhausted && body.remaining > 0 ==> io.spurious < old(io.spurious)
    {
      var buf := new byte[HANDLER_BUFFER];
      var n;
      n, failure := body.Read(buf);
      if failure.Some? { return seen, false, failure; }
      seen := seen + buf[..n];
    }
    cutShort := body.CutShort();
    failure := body.Drain();
    if failure.Some? { cutShort := false; }
  }

  /** Each served request has the header of the requested one and a prefix of its body. */
  predicate Serves(served: seq<Request>, requested: seq<Request>) {
    && |served| == |requested|
    && forall i :: 0 <= i < |served| ==> served[i].header == requested[i].header && served[i].body <= requested[i].body
  }

  /** One request: its header, what the handler reads of its body, and the drain. */
  method ServeOne(io: ConnectionIO, lengthOf: seq<byte> -> nat, readCount: nat) returns (request: Request, failure: Option<ReadResult>)
    requires io.Valid() && |io.Buffered()| <= READ_AHEAD && io.spurious == 0
    requires forall h :: lengthOf(h) <= MAX_CONTENT_LENGTH - SINGLE_READ_BYTES
    modifies io
    ensures io.Valid() && io.spurious == 0
    ensures failure.None? ==>
              && FirstComplete(old(io.Unread()), lengthOf) && |io.Buffered()| <= READ_AHEAD
              && io.Unread() == AfterFirst(old(io.Unread()), lengthOf)
              && request.header == FirstRequest(old(io.Unread()), lengthOf).header
              && request.body <= FirstRequest(old(io.Unread()), lengthOf).body
    ensures failure.Some? && failure.value.TIMED_OUT? && io.reliable ==> !FirstComplete(old(io.Unread()), lengthOf)
  {
    var header;
    header, failure := ReadHeader(io);
    if failure.Some? { return Request([], []), failure; }
    var seen, cutShort;
    seen, cutShort, failure := HandleBody(io, lengthOf(header), readCount);
    return Request(header, seen), failure;
  }

  /**
   * The per-request loop over `n` pipelined requests. `lengthOf` stands for the header parser's Content-Length.
   * If no wake-up is spurious, the requests served are the requests in the byte stream, in order, whatever the
   * fragmentation and however much of its body each handler reads.
   */
  method ServeRequests(io: ConnectionIO, n: nat, lengthOf: seq<byte> -> nat, readsOf: nat -> nat)
    returns (served: seq<Request>, failure: Option<ReadResult>)
    requires io.Valid() && |io.Buffered()| <= READ_AHEAD && io.spurious == 0
    requires forall h :: lengthOf(h) <= MAX_CONTENT_LENGTH - SINGLE_READ_BYTES
    modifies io
    ensures io.Valid()
    ensures failure.None? ==>
              var split := SplitRequests(old(io.Unread()), n, lengthOf);
              split.Some? && Serves(served, split.value.0) && io.Unread() == split.value.1 && |io.Buffered()| <= READ_AHEAD
    ensures failure.Some? && failure.value.TIMED_OUT? && io.reliable ==> SplitRequests(old(io.Unread()), n, lengthOf).None?
    decreases n
  {
    if n == 0 { return [], None; }
    ghost var u := io.Unread();
    var request;
    request, failure := ServeOne(io, lengthOf, readsOf(n));
    if failure.Some? { return [], failure; }
    ghost var split := SplitRequests(io.Unread(), n - 1, lengthOf);
    var rest;
    rest, failure := ServeRequests(io, n - 1, lengthOf, readsOf);
    served := [request] + rest;
    if failure.None? { ServesCons(request, FirstRequest(u, lengthOf), rest, split.value.0); }
  }

  lemma ServesCons(s: Request, r: Request, served: seq<Request>, requested: seq<Request>)
    requires s.header == r.header && s.body <= r.body && Serves(served, requested)
    ensures Serves([s] + served, [r] + requested)
  {}
}
