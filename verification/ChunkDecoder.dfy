/**
 * The incremental decoder of the chunked transfer coding (section 7.1 of RFC 9112), proved against a
 * decoder that sees the whole body at once.
 */
module ChunkDecoder {
  import opened Wrappers
  import opened Bytes
  import opened ServerConfig
  import opened ConnectionIO
  import opened Hex

  datatype ChunkError = MALFORMED | CHUNK_TOO_LARGE | REQUEST_SIZE_LIMIT_EXCEEDED
  datatype Phase = CHUNK_SIZE | CHUNK_BODY | CHUNK_CRLF | TRAILER | DONE

  /** What one `readSome` gives its caller: a byte count, an unexpected value, or an exception from the I/O. */
  datatype ReadSomeResult = Ok(n: nat) | Err(error: ChunkError) | Thrown(cause: ReadResult)

  // ---------------------------------------------------------------- the whole-body decoder

  datatype State = State(phase: Phase, chunkRemaining: nat, totalBytes: nat)

  datatype Verdict = Complete(rest: seq<byte>) | Bad(error: ChunkError) | Truncated

  /** The chunk payloads joined, and how the chunk sequence ended; `rest` starts at the trailer section. */
  datatype Decoded = Decoded(payload: seq<byte>, verdict: Verdict) {
    function After(prefix: seq<byte>): Decoded { Decoded(prefix + payload, verdict) }
  }

  /** One phase of the grammar: payload bytes, then either the end or the next phase and the bytes it starts at. */
  datatype Step = Stop(payload: seq<byte>, verdict: Verdict) | Go(payload: seq<byte>, next: State, rest: seq<byte>)

  function Advance(st: State, s: seq<byte>): (step: Step)
    ensures step.Go? ==> |step.rest| <= |s| && (|step.rest| == |s| ==> Rank(step.next.phase) < Rank(st.phase))
  {
    match st.phase
    case CHUNK_SIZE =>
      var i := Find(s, CRLF);
      if i == |s| then Stop([], Truncated)
      else if FromChars(s[..i]).None? then Stop([], Bad(MALFORMED))
      else
        var size := FromChars(s[..i]).value;
        if size == 0 then Go([], State(TRAILER, 0, st.totalBytes), s[i + 2..])
        else if size > MAX_TE_CHUNK_LENGTH then Stop([], Bad(CHUNK_TOO_LARGE))
        else if st.totalBytes + size > MAX_TE_LENGTH then Stop([], Bad(REQUEST_SIZE_LIMIT_EXCEEDED))
        else Go([], State(CHUNK_BODY, size, st.totalBytes + size), s[i + 2..])
    case CHUNK_BODY =>
      if |s| < st.chunkRemaining then Stop(s, Truncated)
      else Go(s[..st.chunkRemaining], State(CHUNK_CRLF, 0, st.totalBytes), s[st.chunkRemaining..])
    case CHUNK_CRLF =>
      if |s| < 2 then Stop([], Truncated)
      else if s[..2] != CRLF then Stop([], Bad(MALFORMED))
      else Go([], State(CHUNK_SIZE, 0, st.totalBytes), s[2..])
    case TRAILER => Stop([], Complete(s))
    case DONE => Stop([], Complete(s))
  }

  function Rank(p: Phase): nat { match p case CHUNK_BODY => 3 case CHUNK_CRLF => 2 case CHUNK_SIZE => 1 case _ => 0 }

  function Decode(st: State, s: seq<byte>): Decoded
    decreases |s|, Rank(st.phase)
  {
    match Advance(st, s)
    case Stop(payload, verdict) => Decoded(payload, verdict)
    case Go(payload, next, rest) => Decode(next, rest).After(payload)
  }

  const LINE_LIMIT := MAX_CONTENT_LENGTH - SINGLE_READ_BYTES - 3

  lemma NothingYet(d: Decoded, buf: array<byte>)
    ensures d == d.After(buf[..0])
  {
    Regroup(d, [], []);
    assert buf[..0] == [];
  }

  lemma NothingTaken(d: Decoded, buf: array<byte>, written: nat)
    requires written <= buf.Length
    ensures d == d.After(buf[written..written + 0])
  {
    Regroup(d, [], []);
    assert buf[written..written + 0] == [];
  }

  lemma LastTurn(d: Decoded, before: Decoded, prefix: seq<byte>)
    requires d == before.After(prefix) && before.payload == []
    ensures d.payload == prefix && d.verdict == before.verdict
  {}

  /** One turn's bytes go behind those of earlier turns. */
  lemma OneTurn(d: Decoded, before: Decoded, after: Decoded, prefix: seq<byte>, taken: seq<byte>)
    requires d == before.After(prefix) && before == after.After(taken)
    ensures d == after.After(prefix + taken)
  {
    Regroup(after, prefix, taken);
  }

  lemma AppendSlice(buf: array<byte>, i: nat, j: nat)
    requires i <= j <= buf.Length
    ensures buf[..i] + buf[i..j] == buf[..j]
  {}

  /** No chunk-size line, and no trailer section, is long enough to fill the read buffer. */
  predicate LinesFit(st: State, s: seq<byte>)
    decreases |s|, Rank(st.phase)
  {
    && (st.phase.CHUNK_SIZE? ==> Find(s, CRLF) < LINE_LIMIT)
    && (st.phase.TRAILER? ==> Find(s, CRLF2) < LINE_LIMIT)
    && match Advance(st, s) { case Stop(_, _) => true case Go(_, next, rest) => LinesFit(next, rest) }
  }

  lemma Regroup(d: Decoded, a: seq<byte>, b: seq<byte>)
    ensures d.After(b).After(a) == d.After(a + b)
    ensures d.After([]) == d
  {
    assert a + (b + d.payload) == a + b + d.payload;
    assert [] + d.payload == d.payload;
  }

  lemma DecodeGo(st: State, s: seq<byte>)
    requires Advance(st, s).Go?
    ensures var step := Advance(st, s);
            && Decode(st, s) == Decode(step.next, step.rest).After(step.payload)
            && (LinesFit(st, s) ==> LinesFit(step.next, step.rest))
  {}

  lemma TakeRest(rem: nat, total: nat, s: seq<byte>, k: nat)
    requires k < rem && k <= |s|
    ensures var whole, part := Advance(State(CHUNK_BODY, rem, total), s), Advance(State(CHUNK_BODY, rem - k, total), s[k..]);
            && (rem <= |s| ==> whole.Go? && part == Go(part.payload, whole.next, whole.rest))
            && (rem > |s| ==> whole == Stop(s, Truncated) && part == Stop(s[k..], Truncated))
            && whole.payload == s[..k] + part.payload
  {
    if rem <= |s| {
      assert s[k..][rem - k..] == s[rem..];
      assert s[..rem] == s[..k] + s[k..][..rem - k];
    } else {
      assert s == s[..k] + s[k..];
    }
  }

  /** Where the decoder stands after taking `k` bytes of a chunk that still has `rem`. */
  function Taken(rem: nat, total: nat, k: nat): State
    requires k <= rem
  {
    if k == rem then State(CHUNK_CRLF, 0, total) else State(CHUNK_BODY, rem - k, total)
  }

  /** Taking `k` bytes of the current chunk, possibly all of it, leaves the rest of the decoding as it was. */
  lemma DecodeTake(rem: nat, total: nat, s: seq<byte>, k: nat)
    requires 0 < rem && k <= rem && k <= |s|
    ensures Decode(State(CHUNK_BODY, rem, total), s) == Decode(Taken(rem, total, k), s[k..]).After(s[..k])
    ensures LinesFit(State(CHUNK_BODY, rem, total), s) ==> LinesFit(Taken(rem, total, k), s[k..])
  {
    var st := State(CHUNK_BODY, rem, total);
    if k == rem {
      DecodeGo(st, s);
    } else {
      TakeRest(rem, total, s, k);
      if rem <= |s| {
        DecodeGo(st, s);
        DecodeGo(Taken(rem, total, k), s[k..]);
        var part := Advance(Taken(rem, total, k), s[k..]);
        Regroup(Decode(part.next, part.rest), s[..k], part.payload);
      }
    }
  }

  // ---------------------------------------------------------------- the trailer section

  predicate StartsWithCrlf(t: seq<byte>) { |t| >= 2 && t[..2] == CRLF }

  /** Section 7.1 of RFC 9112: trailer fields up to the empty line that ends the body, then whatever follows. */
  function TrailerSection(t: seq<byte>): Option<(seq<byte>, seq<byte>)> {
    if StartsWithCrlf(t) then Some(([], t[2..]))
    else
      var i := Find(t, CRLF2);
      if i == |t| then None else Some((t[..i], t[i + 4..]))
  }

  /** What the code does with `t` when `lookahead` bytes of it are buffered on entry; `buffered` are buffered afterwards. */
  ghost predicate TrailerStep(t: seq<byte>, lookahead: nat, trailers: seq<byte>, rest: seq<byte>, buffered: nat) {
    if StartsWithCrlf(t) && lookahead >= 2 then trailers == [] && rest == t[2..] && buffered == lookahead - 2
    else
      var i := Find(t, CRLF2);
      i < |t| && trailers == t[..i] && rest == t[i + 4..]
  }

  /**
   * The trailer section is read as the standard has it exactly when it is not empty or its two bytes are
   * already buffered. Otherwise the code scans past the end of the body.
   */
  lemma TrailerExact(t: seq<byte>, lookahead: nat, trailers: seq<byte>, rest: seq<byte>, buffered: nat)
    requires TrailerStep(t, lookahead, trailers, rest, buffered)
    ensures TrailerSection(t) == Some((trailers, rest)) <==> (StartsWithCrlf(t) ==> lookahead >= 2)
    ensures StartsWithCrlf(t) && lookahead < 2 ==> |rest| < |t| - 2
  {
    if StartsWithCrlf(t) && lookahead < 2 { assert |rest| <= |t| - 4; }
  }

  // ---------------------------------------------------------------- the incremental decoder

  /** Why a call may end in an I/O exception, given the decoding of everything unread before it. */
  ghost predicate Excused(cause: ReadResult, reliable: bool, d: Decoded, fit: bool) {
    && !cause.DATA? && !cause.WOULD_BLOCK?
    && (cause.BUFFER_LIMIT_EXCEEDED? ==> !fit)
    && (reliable && cause.TIMED_OUT? ==>
          d.verdict.Truncated? || (d.verdict.Complete? && Find(d.verdict.rest, CRLF2) == |d.verdict.rest|))
    && (reliable ==> cause.TIMED_OUT? || cause.BUFFER_LIMIT_EXCEEDED?)
  }

  lemma BufferedStart(b: seq<byte>, rest: seq<byte>)
    ensures |b| >= 2 ==> (StartsWithCrlf(b + rest) <==> b[0] == CR && b[1] == LF)
  {
    if |b| >= 2 { assert (b + rest)[..2] == [b[0], b[1]]; }
  }

  lemma TrailerFailure(st: State, s: seq<byte>, cause: ReadResult, reliable: bool)
    requires st.phase.TRAILER? && !cause.DATA? && !cause.WOULD_BLOCK?
    requires cause.BUFFER_LIMIT_EXCEEDED? ==> Find(s, CRLF2) >= LINE_LIMIT
    requires reliable ==> cause.TIMED_OUT? || cause.BUFFER_LIMIT_EXCEEDED?
    requires reliable && cause.TIMED_OUT? ==> Find(s, CRLF2) == |s|
    ensures Excused(cause, reliable, Decode(st, s), LinesFit(st, s))
  {}

  /** What excuses a failure later in the body excuses it from the start. */
  lemma ExcusedEarlier(cause: ReadResult, reliable: bool, d: Decoded, before: Decoded, prefix: seq<byte>, fit: bool, fitNow: bool)
    requires Excused(cause, reliable, before, fitNow) && (fit ==> fitNow) && d == before.After(prefix)
    ensures Excused(cause, reliable, d, fit)
  {}

  class ChunkDecoder {
    var phase: Phase
    var chunkRemaining: nat
    var totalBytes: nat
    var trailers: seq<byte>
    /** How many payload bytes the callers have been given. */
    ghost var delivered: nat
    /** How many bytes were buffered when the trailer section was reached. */
    ghost var lookahead: nat

    ghost predicate Valid() reads this {
      && (if phase.CHUNK_BODY? then 0 < chunkRemaining <= MAX_TE_CHUNK_LENGTH else chunkRemaining == 0)
      && delivered + chunkRemaining == totalBytes <= MAX_TE_LENGTH
      && (!phase.DONE? ==> trailers == [])
    }

    ghost function St(): State reads this { State(phase, chunkRemaining, totalBytes) }

    constructor ()
      ensures Valid() && St() == State(CHUNK_SIZE, 0, 0)
    {
      phase, chunkRemaining, totalBytes, trailers := CHUNK_SIZE, 0, 0, [];
      delivered, lookahead := 0, 0;
    }

    /** Buffers at least one occurrence of `mark`, reading as often as it takes. */
    static method Await(io: ConnectionIO, mark: seq<byte>) returns (i: nat, failure: Option<ReadResult>)
      requires io.Valid() && 2 <= |mark| <= 4
      modifies io
      ensures io.Valid()
      ensures failure.None? ==> io.Unread() == old(io.Unread())
      ensures failure.None? ==> i < |io.Buffered()| && i == Find(io.Buffered(), mark) == Find(io.Unread(), mark)
      ensures failure.Some? ==>
                var c := failure.value;
                && !c.DATA? && !c.WOULD_BLOCK?
                && (c.BUFFER_LIMIT_EXCEEDED? ==> Find(old(io.Unread()), mark) >= LINE_LIMIT)
                && (io.reliable ==> c.TIMED_OUT? || c.BUFFER_LIMIT_EXCEEDED?)
                && (io.reliable && c.TIMED_OUT? ==> Find(old(io.Unread()), mark) == |old(io.Unread())|)
    {
      i := Find(io.Buffered(), mark);
      while i == |io.Buffered()|
        invariant io.Valid() && io.Unread() == old(io.Unread()) && i == Find(io.Buffered(), mark)
        decreases |io.incoming|, io.spurious
      {
        FindAfterMiss(io.Buffered(), io.incoming, mark);
        ghost var n := |io.Buffered()|;
        var r := io.Read(SINGLE_READ_BYTES, MAX_CONTENT_LENGTH);
        if !r.DATA? && !r.WOULD_BLOCK? {
          if io.reliable && r.TIMED_OUT? { assert io.Unread() == io.Buffered(); }
          return i, Some(r);
        }
        i := Find(io.Buffered(), mark);
      }
      FindExtends(io.Buffered(), io.incoming, mark);
      failure := None;
    }

    method ReadChunkSize(io: ConnectionIO) returns (r: ReadSomeResult)
      requires Valid() && io.Valid() && phase.CHUNK_SIZE?
      modifies this, io
      ensures io.Valid() && delivered == old(delivered)
      ensures r.Ok? ==> r.n == 0 && Valid() && !phase.DONE? && |io.Unread()| < |old(io.Unread())|
      ensures r.Ok? ==> Advance(old(St()), old(io.Unread())) == Go([], St(), io.Unread())
      ensures r.Err? ==> Advance(old(St()), old(io.Unread())) == Stop([], Bad(r.error))
      ensures r.Thrown? ==> Excused(r.cause, io.reliable, Decode(old(St()), old(io.Unread())), LinesFit(old(St()), old(io.Unread())))
    {
      var i, failure := Await(io, CRLF);
      if failure.Some? { return Thrown(failure.value); }
      ghost var s := io.Unread();
      assert io.Buffered()[..i] == s[..i];
      var size := FromChars(io.Buffered()[..i]);
      if size.None? { return Err(MALFORMED); }
      io.EraseFromReadBuffer(i + 2);
      if size.value == 0 {
        phase := TRAILER;
        return Ok(0);
      }
      if size.value > MAX_TE_CHUNK_LENGTH { return Err(CHUNK_TOO_LARGE); }
      totalBytes := totalBytes + size.value;
      if totalBytes > MAX_TE_LENGTH { return Err(REQUEST_SIZE_LIMIT_EXCEEDED); }
      chunkRemaining := size.value;
      phase := CHUNK_BODY;
      return Ok(0);
    }

    /** `std::memcpy` to an offset of the caller's buffer. */
    static method CopyInto(buf: array<byte>, at: nat, data: seq<byte>)
      requires at + |data| <= buf.Length
      modifies buf
      ensures buf[..at] == old(buf[..at]) && buf[at..at + |data|] == data
    {
      forall j | 0 <= j < |data| { buf[at + j] := data[j]; }
    }

    method ReadChunkBody(io: ConnectionIO, buf: array<byte>, written: nat) returns (r: ReadSomeResult)
      requires Valid() && io.Valid() && phase.CHUNK_BODY? && written < buf.Length
      modifies this, io, buf
      ensures io.Valid()
      ensures r.Ok? ==> Valid() && written + r.n <= buf.Length && buf[..written] == old(buf[..written])
      ensures r.Ok? ==> delivered == old(delivered) + r.n
      ensures r.Ok? ==> r.n <= old(chunkRemaining) && St() == Taken(old(chunkRemaining), old(totalBytes), r.n)
      ensures r.Ok? ==> r.n <= |old(io.Unread())| && io.Unread() == old(io.Unread())[r.n..]
      ensures r.Ok? ==> buf[written..written + r.n] == old(io.Unread())[..r.n]
      ensures r.Ok? && r.n == 0 ==> io.spurious < old(io.spurious)
      ensures !r.Err?
      ensures r.Thrown? ==> !r.cause.DATA? && !r.cause.WOULD_BLOCK? && !r.cause.BUFFER_LIMIT_EXCEEDED?
      ensures r.Thrown? && io.reliable ==> r.cause.TIMED_OUT? && old(io.Unread()) == []
    {
      if |io.Buffered()| == 0 {
        var read := io.Read(SINGLE_READ_BYTES, MAX_CONTENT_LENGTH);
        if !read.DATA? && !read.WOULD_BLOCK? { return Thrown(read); }
      }
      var toCopy := Min(|io.Buffered()|, Min(chunkRemaining, buf.Length - written));
      var data := io.Buffered()[..toCopy];
      assert data == io.Unread()[..toCopy];
      CopyInto(buf, written, data);
      io.EraseFromReadBuffer(toCopy);
      chunkRemaining := chunkRemaining - toCopy;
      delivered := delivered + toCopy;
      if chunkRemaining == 0 { phase := CHUNK_CRLF; }
      return Ok(toCopy);
    }

    method ReadChunkCrlf(io: ConnectionIO) returns (r: ReadSomeResult)
      requires Valid() && io.Valid() && phase.CHUNK_CRLF?
      modifies this, io
      ensures io.Valid() && delivered == old(delivered)
      ensures r.Ok? ==> r.n == 0 && Valid() && phase.CHUNK_SIZE? && |io.Unread()| < |old(io.Unread())|
      ensures r.Ok? ==> Advance(old(St()), old(io.Unread())) == Go([], St(), io.Unread())
      ensures r.Err? ==> Advance(old(St()), old(io.Unread())) == Stop([], Bad(r.error))
      ensures r.Thrown? ==> Excused(r.cause, io.reliable, Decode(old(St()), old(io.Unread())), LinesFit(old(St()), old(io.Unread())))
    {
      while |io.Buffered()| < 2
        invariant io.Valid() && io.Unread() == old(io.Unread())
        modifies io
        decreases |io.incoming|, io.spurious
      {
        var read := io.Read(SINGLE_READ_BYTES, MAX_CONTENT_LENGTH);
        if !read.DATA? && !read.WOULD_BLOCK? { return Thrown(read); }
      }
      ghost var s := io.Unread();
      assert s[..2] == io.Buffered()[..2] == [io.Buffered()[0], io.Buffered()[1]];
      if io.Buffered()[0] != CR || io.Buffered()[1] != LF { return Err(MALFORMED); }
      io.EraseFromReadBuffer(2);
      phase := CHUNK_SIZE;
      return Ok(0);
    }

    method ReadTrailer(io: ConnectionIO) returns (r: ReadSomeResult)
      requires Valid() && io.Valid() && phase.TRAILER?
      modifies this, io
      ensures io.Valid() && delivered == old(delivered)
      ensures r.Ok? ==> r.n == 0 && Valid() && phase.DONE? && lookahead == |old(io.Buffered())|
      ensures r.Ok? ==> TrailerStep(old(io.Unread()), lookahead, trailers, io.Unread(), |io.Buffered()|)
      ensures !r.Err?
      ensures r.Thrown? ==> Excused(r.cause, io.reliable, Decode(old(St()), old(io.Unread())), LinesFit(old(St()), old(io.Unread())))
    {
      lookahead := |io.Buffered()|;
      BufferedStart(io.Buffered(), io.incoming);
      if |io.Buffered()| >= 2 && io.Buffered()[0] == CR && io.Buffered()[1] == LF {
        io.EraseFromReadBuffer(2);
        phase := DONE;
        return Ok(0);
      }
      r := ScanTrailer(io);
    }

    /** The trailer section up to the next blank line. */
    method ScanTrailer(io: ConnectionIO) returns (r: ReadSomeResult)
      requires Valid() && io.Valid() && phase.TRAILER?
      modifies this`phase, this`trailers, io
      ensures io.Valid() && !r.Err?
      ensures r.Ok? ==> r.n == 0 && Valid() && phase.DONE?
      ensures r.Ok? ==>
                var t := old(io.Unread());
                Find(t, CRLF2) < |t| && trailers == t[..Find(t, CRLF2)] && io.Unread() == t[Find(t, CRLF2) + 4..]
      ensures r.Thrown? ==> Excused(r.cause, io.reliable, Decode(old(St()), old(io.Unread())), LinesFit(old(St()), old(io.Unread())))
    {
      ghost var s := io.Unread();
      var i, failure := Await(io, CRLF2);
      if failure.Some? {
        TrailerFailure(old(St()), s, failure.value, io.reliable);
        return Thrown(failure.value);
      }
      assert io.Buffered()[..i] == s[..i];
      trailers := io.Buffered()[..i];
      io.EraseFromReadBuffer(i + 4);
      phase := DONE;
      return Ok(0);
    }

    /** One turn of the loop in `readSome`: whatever the current phase calls for. */
    method Turn(io: ConnectionIO, buf: array<byte>, written: nat, ghost d: Decoded, ghost fit: bool) returns (r: ReadSomeResult)
      requires Valid() && io.Valid() && !phase.DONE? && written < buf.Length
      requires d == Decode(St(), io.Unread()) && fit == LinesFit(St(), io.Unread())
      modifies this, io, buf
      ensures io.Valid()
      ensures r.Ok? ==> Valid() && written + r.n <= buf.Length && buf[..written] == old(buf[..written])
      ensures r.Ok? ==> delivered == old(delivered) + r.n
      ensures r.Ok? && !phase.DONE? ==>
                && d == Decode(St(), io.Unread()).After(buf[written..written + r.n])
                && (fit ==> LinesFit(St(), io.Unread()))
                && !old(phase).TRAILER?
                && |io.Unread()| <= |old(io.Unread())|
                && (|io.Unread()| == |old(io.Unread())| ==>
                      Rank(phase) < Rank(old(phase)) || (phase == old(phase) && io.spurious < old(io.spurious)))
      ensures r.Ok? && phase.DONE? ==>
                && old(phase).TRAILER? && r.n == 0 && lookahead == |old(io.Buffered())|
                && d.verdict.Complete? && d.payload == []
                && TrailerStep(d.verdict.rest, lookahead, trailers, io.Unread(), |io.Buffered()|)
      ensures r.Err? ==> d.verdict == Bad(r.error)
      ensures r.Thrown? ==> Excused(r.cause, io.reliable, d, fit)
    {
      if phase.TRAILER? {
        r := ReadTrailer(io);
      } else if phase.CHUNK_BODY? {
        r := BodyTurn(io, buf, written, d, fit);
      } else {
        r := FramingTurn(io, d, fit);
        if r.Ok? { NothingTaken(d, buf, written); }
      }
    }

    /** A turn inside chunk data. */
    method BodyTurn(io: ConnectionIO, buf: array<byte>, written: nat, ghost d: Decoded, ghost fit: bool) returns (r: ReadSomeResult)
      requires Valid() && io.Valid() && phase.CHUNK_BODY? && written < buf.Length
      requires d == Decode(St(), io.Unread()) && fit == LinesFit(St(), io.Unread())
      modifies this, io, buf
      ensures io.Valid() && !r.Err?
      ensures r.Ok? ==> Valid() && written + r.n <= buf.Length && buf[..written] == old(buf[..written]) && !phase.DONE?
      ensures r.Ok? ==> delivered == old(delivered) + r.n
      ensures r.Ok? ==> d == Decode(St(), io.Unread()).After(buf[written..written + r.n]) && (fit ==> LinesFit(St(), io.Unread()))
      ensures r.Ok? ==> |io.Unread()| < |old(io.Unread())|
                        || (|io.Unread()| == |old(io.Unread())| && phase == old(phase) && io.spurious < old(io.spurious))
      ensures r.Thrown? ==> Excused(r.cause, io.reliable, d, fit)
    {
      r := ReadChunkBody(io, buf, written);
      if r.Ok? { DecodeTake(old(chunkRemaining), old(totalBytes), old(io.Unread()), r.n); }
    }

    /** A turn between chunk data: a size line, or the line break after a chunk. */
    method FramingTurn(io: ConnectionIO, ghost d: Decoded, ghost fit: bool) returns (r: ReadSomeResult)
      requires Valid() && io.Valid() && (phase.CHUNK_SIZE? || phase.CHUNK_CRLF?)
      requires d == Decode(St(), io.Unread()) && fit == LinesFit(St(), io.Unread())
      modifies this, io
      ensures io.Valid()
      ensures r.Ok? ==> Valid() && r.n == 0 && !phase.DONE? && delivered == old(delivered)
      ensures r.Ok? ==> d == Decode(St(), io.Unread()) && (fit ==> LinesFit(St(), io.Unread()))
      ensures r.Ok? ==> |io.Unread()| < |old(io.Unread())|
      ensures r.Err? ==> d.verdict == Bad(r.error)
      ensures r.Thrown? ==> Excused(r.cause, io.reliable, d, fit)
    {
      if phase.CHUNK_SIZE? { r := ReadChunkSize(io); } else { r := ReadChunkCrlf(io); }
      if r.Ok? {
        DecodeGo(old(St()), old(io.Unread()));
        Regroup(Decode(St(), io.Unread()), [], []);
      }
    }

    /**
     * Fills `buf` with the next payload bytes. Whatever the fragmentation and the buffer size, the bytes
     * delivered are the ones the whole-body decoder yields next, and nothing after the body is touched.
     */
    method ReadSome(io: ConnectionIO, buf: array<byte>) returns (r: ReadSomeResult)
      requires Valid() && io.Valid()
      modifies this, io, buf
      ensures io.Valid()
      ensures r.Ok? ==> Valid() && r.n <= buf.Length && delivered == old(delivered) + r.n
      ensures old(phase).DONE? ==> r == Ok(0) && phase.DONE? && io.Unread() == old(io.Unread()) && io.Buffered() == old(io.Buffered()) && trailers == old(trailers) && lookahead == old(lookahead)
      ensures r.Ok? && !phase.DONE? ==>
                && r.n == buf.Length
                && Decode(old(St()), old(io.Unread())) == Decode(St(), io.Unread()).After(buf[..r.n])
                && (LinesFit(old(St()), old(io.Unread())) ==> LinesFit(St(), io.Unread()))
      ensures r.Ok? && phase.DONE? && !old(phase).DONE? ==>
                var d := Decode(old(St()), old(io.Unread()));
                && d.verdict.Complete? && d.payload == buf[..r.n]
                && TrailerStep(d.verdict.rest, lookahead, trailers, io.Unread(), |io.Buffered()|)
                && (old(phase).TRAILER? && buf.Length > 0 ==> lookahead == |old(io.Buffered())|)
      ensures r.Err? ==> Decode(old(St()), old(io.Unread())).verdict == Bad(r.error)
      ensures r.Thrown? ==> Excused(r.cause, io.reliable, Decode(old(St()), old(io.Unread())), LinesFit(old(St()), old(io.Unread())))
    {
      if phase.DONE? { return Ok(0); }
      r := FillBuffer(io, buf, Decode(St(), io.Unread()), LinesFit(St(), io.Unread()));
    }

    /** The loop of `readSome`, on a body that decodes as `d`. */
    method FillBuffer(io: ConnectionIO, buf: array<byte>, ghost d: Decoded, ghost fit: bool) returns (r: ReadSomeResult)
      requires Valid() && io.Valid() && !phase.DONE?
      requires d == Decode(St(), io.Unread()) && (fit ==> LinesFit(St(), io.Unread()))
      modifies this, io, buf
      ensures io.Valid()
      ensures r.Ok? ==> Valid() && r.n <= buf.Length && delivered == old(delivered) + r.n
      ensures r.Ok? && !phase.DONE? ==>
                && r.n == buf.Length
                && d == Decode(St(), io.Unread()).After(buf[..r.n]) && (fit ==> LinesFit(St(), io.Unread()))
      ensures r.Ok? && phase.DONE? ==>
                && d.verdict.Complete? && d.payload == buf[..r.n]
                && TrailerStep(d.verdict.rest, lookahead, trailers, io.Unread(), |io.Buffered()|)
                && (old(phase).TRAILER? && buf.Length > 0 ==> lookahead == |old(io.Buffered())|)
      ensures r.Err? ==> d.verdict == Bad(r.error)
      ensures r.Thrown? ==> Excused(r.cause, io.reliable, d, fit)
    {
      var written := 0;
      ghost var left, prefix := d, buf[..0];
      NothingYet(d, buf);
      while written < buf.Length
        invariant Valid() && io.Valid() && 0 <= written <= buf.Length && !phase.DONE?
        invariant delivered == old(delivered) + written
        invariant left == Decode(St(), io.Unread()) && (fit ==> LinesFit(St(), io.Unread()))
        invariant d == left.After(prefix) && prefix == buf[..written]
        invariant old(phase).TRAILER? ==> phase.TRAILER? && written == 0 && io.Buffered() == old(io.Buffered())
        decreases |io.Unread()|, Rank(phase), io.spurious
      {
        r, left, prefix := TurnAfter(io, buf, written, d, left, prefix, fit);
        if !r.Ok? { return; }
        if phase.DONE? { break; }
        written := written + r.n;
      }
      return Ok(written);
    }

    /** A turn behind `written` delivered bytes of a body that decodes as `d`. */
    method TurnAfter(io: ConnectionIO, buf: array<byte>, written: nat, ghost d: Decoded, ghost before: Decoded, ghost prefix: seq<byte>,
                     ghost fit: bool)
      returns (r: ReadSomeResult, ghost after: Decoded, ghost bytes: seq<byte>)
      requires Valid() && io.Valid() && !phase.DONE? && written < buf.Length
      requires before == Decode(St(), io.Unread()) && prefix == buf[..written] && d == before.After(prefix) && (fit ==> LinesFit(St(), io.Unread()))
      modifies this, io, buf
      ensures io.Valid()
      ensures r.Ok? ==> Valid() && written + r.n <= buf.Length && delivered == old(delivered) + r.n && (old(phase).TRAILER? ==> phase.DONE?)
      ensures r.Ok? && !phase.DONE? ==>
                && after == Decode(St(), io.Unread()) && bytes == buf[..written + r.n] && d == after.After(bytes) && (fit ==> LinesFit(St(), io.Unread()))
                && |io.Unread()| <= |old(io.Unread())|
                && (|io.Unread()| == |old(io.Unread())| ==>
                      Rank(phase) < Rank(old(phase)) || (phase == old(phase) && io.spurious < old(io.spurious)))
      ensures r.Ok? && phase.DONE? ==>
                && old(phase).TRAILER? && r.n == 0 && lookahead == |old(io.Buffered())|
                && d.verdict.Complete? && d.payload == buf[..written] && TrailerStep(d.verdict.rest, lookahead, trailers, io.Unread(), |io.Buffered()|)
      ensures r.Err? ==> d.verdict == Bad(r.error)
      ensures r.Thrown? ==> Excused(r.cause, io.reliable, d, fit)
    {
      ghost var fitNow := LinesFit(St(), io.Unread());
      after, bytes := before, prefix;
      r := Turn(io, buf, written, before, fitNow);
      if r.Thrown? {
        ExcusedEarlier(r.cause, io.reliable, d, before, prefix, fit, fitNow);
        return;
      }
      if r.Err? { return; }
      if phase.DONE? {
        LastTurn(d, before, prefix);
        return;
      }
      after := Decode(St(), io.Unread());
      ghost var taken := buf[written..written + r.n];
      AppendSlice(buf, written, written + r.n);
      bytes := prefix + taken;
      OneTurn(d, before, after, prefix, taken);
    }
  }

  /**
   * A handler reading the body to its end with buffers of any sizes (`BodyStream::read` until it returns 0).
   * However the socket fragments the input and whatever the buffers, the handler sees exactly the payload.
   */
  method ReadToEnd(decoder: ChunkDecoder, io: ConnectionIO, sizes: seq<nat>)
    returns (body: seq<byte>, finished: bool, failure: ReadSomeResult)
    requires decoder.Valid() && io.Valid() && !decoder.phase.DONE?
    requires forall j :: 0 <= j < |sizes| ==> sizes[j] > 0
    modifies decoder, io
    ensures io.Valid()
    ensures finished ==>
              var d := Decode(old(decoder.St()), old(io.Unread()));
              d.verdict.Complete? && body == d.payload && TrailerStep(d.verdict.rest, decoder.lookahead, decoder.trailers, io.Unread(), |io.Buffered()|)
    ensures finished ==> decoder.Valid() && decoder.delivered == old(decoder.delivered) + |body|
    ensures failure.Err? ==> Decode(old(decoder.St()), old(io.Unread())).verdict == Bad(failure.error)
    ensures failure.Thrown? ==>
              Excused(failure.cause, io.reliable, Decode(old(decoder.St()), old(io.Unread())), LinesFit(old(decoder.St()), old(io.Unread())))
    ensures !finished && failure.Ok? ==> |body| >= |sizes|
    ensures body <= Decode(old(decoder.St()), old(io.Unread())).payload
  {
    body, finished, failure := [], false, Ok(0);
    ghost var d, fit := Decode(decoder.St(), io.Unread()), LinesFit(decoder.St(), io.Unread());
    Regroup(d, [], []);
    for i := 0 to |sizes|
      invariant decoder.Valid() && io.Valid()
      invariant decoder.delivered == old(decoder.delivered) + |body|
      invariant !decoder.phase.DONE? ==> d == Decode(decoder.St(), io.Unread()).After(body)
      invariant !decoder.phase.DONE? && fit ==> LinesFit(decoder.St(), io.Unread())
      invariant decoder.phase.DONE? ==>
                  d.verdict.Complete? && body == d.payload && TrailerStep(d.verdict.rest, decoder.lookahead, decoder.trailers, io.Unread(), |io.Buffered()|)
      invariant |body| >= i
    {
      var buf := new byte[sizes[i]];
      var before := body;
      var r := decoder.ReadSome(io, buf);
      if !r.Ok? { return body, false, r; }
      if r.n == 0 { return body, true, r; }
      body := body + buf[..r.n];
      if !decoder.phase.DONE? { Regroup(Decode(decoder.St(), io.Unread()), before, buf[..r.n]); }
    }
  }

  // ---------------------------------------------------------------- the encoder

  function EncodeChunk(chunk: seq<byte>): seq<byte> {
    ToChars(|chunk|) + CRLF + chunk + CRLF
  }

  /** The chunks in order and the zero-length chunk `HttpConnection` sends to close the stream. */
  function EncodeBody(chunks: seq<seq<byte>>): seq<byte> {
    if chunks == [] then EncodeChunk([]) else EncodeChunk(chunks[0]) + EncodeBody(chunks[1..])
  }

  function Join(chunks: seq<seq<byte>>): seq<byte> {
    if chunks == [] then [] else chunks[0] + Join(chunks[1..])
  }

  class WriteBuffer {
    var bytes: seq<byte>

    constructor (bytes: seq<byte>)
      ensures this.bytes == bytes
    { this.bytes := bytes; }

    method Resize(size: nat)
      requires |bytes| <= size
      modifies this
      ensures |bytes| == size && bytes[..|old(bytes)|] == old(bytes)
    { bytes := bytes + seq(size - |bytes|, _ => 0); }

    method WriteAt(offset: nat, data: seq<byte>)
      requires offset + |data| <= |bytes|
      modifies this
      ensures |bytes| == |old(bytes)| && bytes[..offset] == old(bytes[..offset]) && bytes[offset..offset + |data|] == data
    { bytes := bytes[..offset] + data + bytes[offset + |data|..]; }

    /** `serializeChunkInto`: appends the encoded chunk, or refuses and changes nothing. */
    method SerializeChunkInto(chunk: seq<byte>) returns (ok: bool)
      requires |chunk| < SIZE_T
      modifies this
      ensures ok <==> |old(bytes)| + |EncodeChunk(chunk)| <= MAX_WRITE_BUFFER_BYTES
      ensures bytes == if ok then old(bytes) + EncodeChunk(chunk) else old(bytes)
    {
      var hex := ToChars(|chunk|);
      var oldSize := |bytes|;
      if oldSize + |chunk| + |hex| + 4 > MAX_WRITE_BUFFER_BYTES { return false; }
      Resize(oldSize + |chunk| + |hex| + 4);
      var offset := oldSize + |hex|;
      WriteAt(oldSize, hex);
      assert bytes[..offset] == old(bytes) + hex;
      WriteAt(offset, CRLF);
      offset := offset + 2;
      assert bytes[..offset] == old(bytes) + hex + CRLF;
      WriteAt(offset, chunk);
      offset := offset + |chunk|;
      assert bytes[..offset] == old(bytes) + hex + CRLF + chunk;
      WriteAt(offset, CRLF);
      assert bytes == bytes[..offset] + CRLF;
      return true;
    }
  }

  lemma SizeLine(v: nat, rest: seq<byte>)
    requires v < SIZE_T
    ensures var s := ToChars(v) + CRLF + rest;
            && Find(s, CRLF) == |ToChars(v)| && FromChars(s[..|ToChars(v)|]) == Some(v)
            && s[|ToChars(v)| + 2..] == rest
  {
    var hex := ToChars(v);
    var s := hex + CRLF + rest;
    assert s[|hex|..|hex| + 2] == CRLF;
    forall j: nat | j < |hex| ensures !OccursAt(s, CRLF, j) {
      assert s[j..j + 2][0] == s[j] == hex[j] && IsHexDigit(hex[j]);
    }
    FindIs(s, CRLF, |hex|);
    assert s[..|hex|] == hex + [];
    RoundTrip(v, []);
  }

  /** Decoding one encoded chunk yields the chunk and leaves the decoder at the next chunk-size line. */
  lemma DecodeOneChunk(chunk: seq<byte>, total: nat, rest: seq<byte>)
    requires 0 < |chunk| <= MAX_TE_CHUNK_LENGTH && total + |chunk| <= MAX_TE_LENGTH
    ensures Decode(State(CHUNK_SIZE, 0, total), EncodeChunk(chunk) + rest)
            == Decode(State(CHUNK_SIZE, 0, total + |chunk|), rest).After(chunk)
  {
    var s := EncodeChunk(chunk) + rest;
    var afterSize := chunk + (CRLF + rest);
    assert s == ToChars(|chunk|) + CRLF + afterSize;
    SizeLine(|chunk|, afterSize);
    var st0, st1 := State(CHUNK_SIZE, 0, total), State(CHUNK_BODY, |chunk|, total + |chunk|);
    var st2, st3 := State(CHUNK_CRLF, 0, total + |chunk|), State(CHUNK_SIZE, 0, total + |chunk|);
    assert Advance(st0, s) == Go([], st1, afterSize);
    assert Advance(st1, afterSize) == Go(chunk, st2, CRLF + rest);
    assert Advance(st2, CRLF + rest) == Go([], st3, rest);
    DecodeGo(st0, s);
    DecodeGo(st1, afterSize);
    DecodeGo(st2, CRLF + rest);
    Regroup(Decode(st3, rest), [], []);
    Regroup(Decode(st2, CRLF + rest), chunk, []);
    Regroup(Decode(st1, afterSize), [], []);
  }

  /** The decoder at a chunk-size line, with `total` bytes announced so far. */
  function DecodeFrom(total: nat, s: seq<byte>): Decoded { Decode(State(CHUNK_SIZE, 0, total), s) }

  lemma DecodeOneMore(chunk: seq<byte>, total: nat, rest: seq<byte>, d: Decoded)
    requires 0 < |chunk| <= MAX_TE_CHUNK_LENGTH && total + |chunk| <= MAX_TE_LENGTH
    requires DecodeFrom(total + |chunk|, rest) == d
    ensures DecodeFrom(total, EncodeChunk(chunk) + rest) == Decoded(chunk + d.payload, d.verdict)
  {
    DecodeOneChunk(chunk, total, rest);
  }

  predicate WithinLimits(chunks: seq<seq<byte>>, total: nat) {
    && (forall j :: 0 <= j < |chunks| ==> 0 < |chunks[j]| <= MAX_TE_CHUNK_LENGTH)
    && total + |Join(chunks)| <= MAX_TE_LENGTH
  }

  lemma DecodeTerminator(total: nat, tail: seq<byte>)
    ensures DecodeFrom(total, EncodeChunk([]) + tail) == Decoded([], Complete(CRLF + tail))
  {
    var s := EncodeChunk([]) + tail;
    assert s == ToChars(0) + CRLF + (CRLF + tail);
    SizeLine(0, CRLF + tail);
    DecodeGo(State(CHUNK_SIZE, 0, total), s);
    Regroup(Decode(State(TRAILER, 0, total), CRLF + tail), [], []);
  }

  lemma SplitEncodedBody(chunks: seq<seq<byte>>, tail: seq<byte>)
    requires chunks != []
    ensures EncodeBody(chunks) + tail == EncodeChunk(chunks[0]) + (EncodeBody(chunks[1..]) + tail)
  {}

  lemma SplitLimits(chunks: seq<seq<byte>>, total: nat)
    requires WithinLimits(chunks, total) && chunks != []
    ensures 0 < |chunks[0]| <= MAX_TE_CHUNK_LENGTH && total + |chunks[0]| <= MAX_TE_LENGTH
    ensures WithinLimits(chunks[1..], total + |chunks[0]|) && Join(chunks) == chunks[0] + Join(chunks[1..])
  {}

  /** What the server encodes, the decoder undoes: any non-empty chunks within limits, whatever follows them. */
  lemma {:induction false} EncodeDecode(chunks: seq<seq<byte>>, total: nat, tail: seq<byte>)
    requires WithinLimits(chunks, total)
    ensures DecodeFrom(total, EncodeBody(chunks) + tail) == Decoded(Join(chunks), Complete(CRLF + tail))
  {
    if chunks == [] {
      DecodeTerminator(total, tail);
    } else {
      SplitLimits(chunks, total);
      EncodeDecode(chunks[1..], total + |chunks[0]|, tail);
      DecodeOneMore(chunks[0], total, EncodeBody(chunks[1..]) + tail, Decoded(Join(chunks[1..]), Complete(CRLF + tail)));
      SplitEncodedBody(chunks, tail);
    }
  }

  /**
   * A body as the server encodes it, sent over a connection in any fragments and read to its end. The handler sees the
   * concatenation of the chunks. Exactly the bytes after the body stay unread if and only if `lookahead`, the bytes
   * buffered when the decoder reached the end of the body, include its last two.
   */
  method ReceiveEncoded(decoder: ChunkDecoder, io: ConnectionIO, ghost chunks: seq<seq<byte>>, ghost tail: seq<byte>, sizes: seq<nat>)
    returns (body: seq<byte>, finished: bool, failure: ReadSomeResult, ghost lookahead: nat)
    requires decoder.Valid() && decoder.St() == State(CHUNK_SIZE, 0, 0) && io.Valid()
    requires WithinLimits(chunks, 0) && io.Unread() == EncodeBody(chunks) + tail
    requires forall j :: 0 <= j < |sizes| ==> sizes[j] > 0
    modifies decoder, io
    ensures io.Valid() && body <= Join(chunks) && !failure.Err?
    ensures finished ==> body == Join(chunks)
    ensures finished ==> ((decoder.trailers == [] && io.Unread() == tail) <==> lookahead >= 2)
    ensures finished && lookahead >= 2 ==> |io.Buffered()| == lookahead - 2
    ensures finished && lookahead < 2 ==> |io.Unread()| < |tail|
    ensures failure.Ok? && |sizes| > |Join(chunks)| ==> finished
    ensures failure.Thrown? && io.reliable && failure.cause.TIMED_OUT? ==> Find(CRLF + tail, CRLF2) == |CRLF + tail|
  {
    EncodeDecode(chunks, 0, tail);
    ghost var d := DecodeFrom(0, io.Unread());
    body, finished, failure := ReadToEnd(decoder, io, sizes);
    lookahead := decoder.lookahead;
    if finished {
      assert StartsWithCrlf(CRLF + tail) && (CRLF + tail)[2..] == tail;
      TrailerExact(CRLF + tail, lookahead, decoder.trailers, io.Unread(), |io.Buffered()|);
    }
  }
}
