/**
 * A `multipart/byteranges` response: the length announced before it is made, and the generator that makes it block
 * by block.
 */
module ByteRanges {
  import opened ServerConfig
  import opened Ranges
  import Decimal

  const CRLF := "\r\n"

  /** What the response is made of: the file, the cleaned ranges, the boundary without its dashes, the file's type. */
  datatype Source = Source(file: string, ranges: seq<Interval>, boundary: string, mime: string)

  predicate Served(src: Source) { Within(src.ranges, |src.file|) }

  function Length(r: Interval): nat
    requires r.start <= r.end
  { r.end - r.start + 1 }

  // ---------------------------------------------------------------- the announced length

  /** A `size_t` passed as `int`. */
  function AsInt(n: nat): int { (n + 0x8000_0000) % 0x1_0000_0000 - 0x8000_0000 }

  /** `digit_count` */
  function DigitCount(x: int): nat {
    var v := if x < 0 then -x else x;
    if v >= 1_000_000_000 then 10
    else if v >= 100_000_000 then 9
    else if v >= 10_000_000 then 8
    else if v >= 1_000_000 then 7
    else if v >= 100_000 then 6
    else if v >= 10_000 then 5
    else if v >= 1_000 then 4
    else if v >= 100 then 3
    else if v >= 10 then 2
    else 1
  }

  lemma {:induction false} DecimalLength(n: nat, d: nat, power: nat)
    requires d > 0 && power == Power10(d - 1) && power <= n < 10 * power
    ensures |Decimal.ToString(n)| == d
    decreases d
  {
    if d > 1 {
      assert power == 10 * Power10(d - 2);
      DecimalLength(n / 10, d - 1, Power10(d - 2));
    }
  }

  function Power10(d: nat): nat { if d == 0 then 1 else 10 * Power10(d - 1) }

  /** Below two thousand million it is the length of the number in decimal. */
  lemma DigitCountIsLength(n: nat)
    requires n < 0x8000_0000
    ensures DigitCount(AsInt(n)) == |Decimal.ToString(n)|
  {
    assert AsInt(n) == n;
    var d := DigitCount(n);
    if n < 10 {
      assert |Decimal.ToString(n)| == 1;
    } else {
      Powers();
      DecimalLength(n, d, Power10(d - 1));
    }
  }

  lemma Powers()
    ensures Power10(0) == 1 && Power10(1) == 10 && Power10(2) == 100 && Power10(3) == 1_000 && Power10(4) == 10_000
    ensures Power10(5) == 100_000 && Power10(6) == 1_000_000 && Power10(7) == 10_000_000
    ensures Power10(8) == 100_000_000 && Power10(9) == 1_000_000_000
  {
    assert Power10(4) == 10 * Power10(3);
    assert Power10(7) == 10 * Power10(6);
  }

  const CONTENT_RANGE_BASE := 21 + 1 + 1 + 2

  function PartSize(src: Source, r: Interval): nat
    requires r.start <= r.end
  {
    (2 + |src.boundary|) + 2
    + (CONTENT_RANGE_BASE + DigitCount(AsInt(r.start)) + DigitCount(AsInt(r.end)) + DigitCount(AsInt(|src.file|)))
    + (14 + |src.mime| + 2) + 2
    + (r.end - r.start + 1 + 2)
  }

  function PartSizes(src: Source, n: nat): nat
    requires Served(src) && n <= |src.ranges|
  {
    if n == 0 then 0 else PartSizes(src, n - 1) + PartSize(src, src.ranges[n - 1])
  }

  /** The size of the multipart answer as computed beforehand. */
  function Announced(src: Source): nat
    requires Served(src)
  {
    PartSizes(src, |src.ranges|) + (2 + |src.boundary|) + 4
  }

  /** `totalSize`: `useRange` says that If-Range, if there is one, matches. */
  function ContentLength(src: Source, useRange: bool): nat
    requires Served(src) && (useRange ==> src.ranges != [])
  {
    if useRange && |src.ranges| > 1 then Announced(src)
    else if useRange then Length(src.ranges[0])
    else |src.file|
  }

  /** The content length computed before the response is sent. */
  method TotalSize(src: Source, useRange: bool) returns (totalSize: nat)
    requires Served(src) && (useRange ==> src.ranges != [])
    ensures totalSize == ContentLength(src, useRange)
  {
    var isMultiPart := |src.ranges| > 1;
    var delimiter := "--" + src.boundary;
    if useRange && isMultiPart {
      totalSize := 0;
      var partContentType := "content-type: " + src.mime + CRLF;
      var i := 0;
      while i < |src.ranges|
        invariant 0 <= i <= |src.ranges| && totalSize == PartSizes(src, i)
      {
        var r := src.ranges[i];
        totalSize := totalSize + |delimiter| + 2;
        totalSize := totalSize + (CONTENT_RANGE_BASE + DigitCount(AsInt(r.start)) + DigitCount(AsInt(r.end)) + DigitCount(AsInt(|src.file|)));
        totalSize := totalSize + |partContentType|;
        totalSize := totalSize + 2;
        totalSize := totalSize + (r.end - r.start + 1 + 2);
        i := i + 1;
      }
      totalSize := totalSize + |delimiter| + 4;
    } else if useRange {
      totalSize := src.ranges[0].end - src.ranges[0].start + 1;
    } else {
      totalSize := |src.file|;
    }
  }

  /** The digits of a number that `digit_count` misses because it takes an `int`. */
  function MissedDigits(n: nat): int { |Decimal.ToString(n)| - DigitCount(AsInt(n)) }

  function PartMissed(src: Source, r: Interval): int {
    MissedDigits(r.start) + MissedDigits(r.end) + MissedDigits(|src.file|)
  }

  function Missed(src: Source, n: nat): int
    requires n <= |src.ranges|
  {
    if n == 0 then 0 else Missed(src, n - 1) + PartMissed(src, src.ranges[n - 1])
  }

  /** In files below two gigabytes none is missed. */
  lemma {:induction false} NothingMissed(src: Source, n: nat)
    requires Served(src) && n <= |src.ranges| && |src.file| < 0x8000_0000
    ensures Missed(src, n) == 0
  {
    if n > 0 {
      NothingMissed(src, n - 1);
      DigitCountIsLength(src.ranges[n - 1].start);
      DigitCountIsLength(src.ranges[n - 1].end);
      DigitCountIsLength(|src.file|);
    }
  }

  // ---------------------------------------------------------------- what the generator emits

  function ContentRange(r: Interval, fileSize: nat): string {
    "content-range: bytes " + Decimal.ToString(r.start) + "-" + Decimal.ToString(r.end) + "/" + Decimal.ToString(fileSize)
  }

  function Header(src: Source, r: Interval): string {
    "--" + src.boundary + CRLF + ContentRange(r, |src.file|) + CRLF + ("content-type: " + src.mime + CRLF) + CRLF
  }

  function Closing(src: Source): string { "--" + src.boundary + "--\r\n" }

  /** One range of the response, with the header of its part. */
  datatype Piece = Piece(header: string, range: Interval)

  function Pieces(src: Source): (ps: seq<Piece>)
    ensures |ps| == |src.ranges|
    ensures forall i :: 0 <= i < |ps| ==> ps[i] == Piece(Header(src, src.ranges[i]), src.ranges[i])
  {
    seq(|src.ranges|, i requires 0 <= i < |src.ranges| => Piece(Header(src, src.ranges[i]), src.ranges[i]))
  }

  predicate Fit(file: string, ps: seq<Piece>) {
    forall i :: 0 <= i < |ps| ==> ps[i].range.start <= ps[i].range.end < |file|
  }

  /** How many bytes of the file go into the block with the header. */
  function Room(p: Piece): nat {
    if STATIC_STREAM_CHUNK_SIZE > |p.header| then STATIC_STREAM_CHUNK_SIZE - |p.header| else 0
  }

  /** The block cuts leave exactly one byte of the range for the last block. */
  predicate Loses(p: Piece)
    requires p.range.start <= p.range.end
  {
    Length(p.range) > Room(p) && (Length(p.range) - Room(p)) % STATIC_STREAM_CHUNK_SIZE == 1
  }

  /** Header, the range's bytes and a line break; the last byte and the line break are missing where the cuts lose them. */
  function Part(file: string, p: Piece): string
    requires p.range.start <= p.range.end < |file|
  {
    p.header + if Loses(p) then file[p.range.start..p.range.end] else file[p.range.start..p.range.end + 1] + CRLF
  }

  function Parts(file: string, ps: seq<Piece>, n: nat): string
    requires Fit(file, ps) && n <= |ps|
  {
    if n == 0 then "" else Parts(file, ps, n - 1) + Part(file, ps[n - 1])
  }

  function Body(src: Source): string
    requires Served(src)
  {
    Parts(src.file, Pieces(src), |src.ranges|) + Closing(src)
  }

  function Lost(ps: seq<Piece>, n: nat): nat
    requires n <= |ps| && forall i :: 0 <= i < |ps| ==> ps[i].range.start <= ps[i].range.end
  {
    if n == 0 then 0 else Lost(ps, n - 1) + if Loses(ps[n - 1]) then 1 else 0
  }

  lemma HeaderSize(src: Source, r: Interval)
    requires r.start <= r.end < |src.file|
    ensures |Header(src, r)| + Length(r) + 2 == PartSize(src, r) + PartMissed(src, r)
  {
    assert |ContentRange(r, |src.file|)| ==
      21 + |Decimal.ToString(r.start)| + 1 + |Decimal.ToString(r.end)| + 1 + |Decimal.ToString(|src.file|)|;
    assert |"content-type: " + src.mime + CRLF| == 14 + |src.mime| + 2;
  }

  function Sum(sizes: seq<int>, n: nat): int
    requires n <= |sizes|
  {
    if n == 0 then 0 else Sum(sizes, n - 1) + sizes[n - 1]
  }

  lemma {:induction false} PartsSize(file: string, ps: seq<Piece>, sizes: seq<int>, n: nat)
    requires Fit(file, ps) && |sizes| == |ps| && n <= |ps|
    requires forall i :: 0 <= i < n ==> |ps[i].header| + Length(ps[i].range) + 2 == sizes[i]
    ensures |Parts(file, ps, n)| + 3 * Lost(ps, n) == Sum(sizes, n)
  {
    if n > 0 {
      PartsSize(file, ps, sizes, n - 1);
      var p := ps[n - 1];
      assert |Part(file, p)| + (if Loses(p) then 3 else 0) == |p.header| + Length(p.range) + 2;
    }
  }

  lemma {:induction false} SumOfSizes(src: Source, sizes: seq<int>, n: nat)
    requires Served(src) && |sizes| == |src.ranges| && n <= |sizes|
    requires forall i :: 0 <= i < |sizes| ==> sizes[i] == PartSize(src, src.ranges[i]) + PartMissed(src, src.ranges[i])
    ensures Sum(sizes, n) == PartSizes(src, n) + Missed(src, n)
  {
    if n > 0 { SumOfSizes(src, sizes, n - 1); }
  }

  lemma {:induction false} NothingLost(ps: seq<Piece>, n: nat)
    requires n <= |ps| && forall i :: 0 <= i < |ps| ==> ps[i].range.start <= ps[i].range.end
    ensures Lost(ps, n) == 0 <==> forall i :: 0 <= i < n ==> !Loses(ps[i])
  {
    if n > 0 { NothingLost(ps, n - 1); }
  }

  /**
   * For every file and every cleaned list of ranges: the bytes up to the closing delimiter are three fewer than
   * announced for each range that a cut leaves with one byte, and as many more as `digit_count` misses digits.
   */
  lemma AnnouncedLength(src: Source)
    requires Served(src)
    ensures |Body(src)| + 3 * Lost(Pieces(src), |src.ranges|) == Announced(src) + Missed(src, |src.ranges|)
  {
    var ps, n := Pieces(src), |src.ranges|;
    var sizes := seq(n, i requires 0 <= i < n => PartSize(src, src.ranges[i]) + PartMissed(src, src.ranges[i]));
    forall i | 0 <= i < n ensures |ps[i].header| + Length(ps[i].range) + 2 == sizes[i] {
      HeaderSize(src, src.ranges[i]);
    }
    PartsSize(src.file, ps, sizes, n);
    SumOfSizes(src, sizes, n);
    assert |Closing(src)| == 2 + |src.boundary| + 4;
  }

  /** Below two gigabytes the lengths are equal if and only if the cuts leave no range with one byte. */
  lemma AnnouncedExactly(src: Source)
    requires Served(src) && |src.file| < 0x8000_0000
    ensures |Body(src)| + 3 * Lost(Pieces(src), |src.ranges|) == Announced(src)
    ensures |Body(src)| == Announced(src) <==> forall i :: 0 <= i < |src.ranges| ==> !Loses(Pieces(src)[i])
  {
    AnnouncedLength(src);
    NothingMissed(src, |src.ranges|);
    NothingLost(Pieces(src), |src.ranges|);
  }

  /**
   * The content length of an answer with several ranges is that of its body in exactly these cases: If-Range matches
   * and lost bytes make up for missed digits; or it does not match, the whole file's length is announced all the same,
   * and the body happens to have it.
   */
  lemma MultipartContentLength(src: Source, useRange: bool)
    requires Served(src) && |src.ranges| > 1
    ensures ContentLength(src, useRange) == |Body(src)| <==>
      var n := |src.ranges|;
      if useRange then 3 * Lost(Pieces(src), n) == Missed(src, n)
      else |src.file| == Announced(src) + Missed(src, n) - 3 * Lost(Pieces(src), n)
  {
    AnnouncedLength(src);
  }

  // ---------------------------------------------------------------- the generator

  /** What is left of a range at `start`, between two calls. */
  function Remainder(file: string, start: nat, end: nat): string
    requires start <= end + 1 <= |file|
  {
    var n := end + 1 - start;
    if n == 0 then ""
    else if n % STATIC_STREAM_CHUNK_SIZE == 1 then file[start..end]
    else file[start..end + 1] + CRLF
  }

  lemma Slices(s: string, a: nat, b: nat, c: nat)
    requires a <= b <= c <= |s|
    ensures s[a..c] == s[a..b] + s[b..c]
  {}

  /** A range of which no byte or one byte is left counts as finished. */
  lemma Spent(file: string, start: nat, end: nat, emitted: string)
    requires end <= start <= end + 1 <= |file|
    ensures emitted + Remainder(file, start, end) == emitted
  {}

  /** What a block takes from the file when there is room for `room` bytes, and the line break if that is the last of the range. */
  function Taken(file: string, start: nat, end: nat, room: nat): string
    requires start <= end < |file|
  {
    if end + 1 - start <= room then file[start..end + 1] + CRLF else file[start..start + room]
  }

  function NextStart(start: nat, end: nat, room: nat): nat
    requires start <= end
  {
    if end + 1 - start <= room then end + 1 else start + room
  }

  lemma RemainderSplits(file: string, start: nat, end: nat)
    requires start < end < |file|
    ensures Remainder(file, start, end)
         == Taken(file, start, end, STATIC_STREAM_CHUNK_SIZE) + Remainder(file, NextStart(start, end, STATIC_STREAM_CHUNK_SIZE), end)
  {
    var size := STATIC_STREAM_CHUNK_SIZE;
    var n := end + 1 - start;
    if n > size {
      assert n % size == (n - size) % size;
      Slices(file, start, start + size, end);
      Slices(file, start, start + size, end + 1);
    }
  }

  /** A later block takes up to a whole block's worth. */
  lemma Cut(file: string, start: nat, end: nat, before: string)
    requires start < end < |file|
    ensures var size := STATIC_STREAM_CHUNK_SIZE;
      before + ("" + Taken(file, start, end, size)) + Remainder(file, NextStart(start, end, size), end) == before + Remainder(file, start, end)
  {
    RemainderSplits(file, start, end);
    Regroup(before, "", Taken(file, start, end, STATIC_STREAM_CHUNK_SIZE),
            Remainder(file, NextStart(start, end, STATIC_STREAM_CHUNK_SIZE), end));
  }

  /** The first block takes the header and what room it leaves. */
  lemma FirstCut(file: string, p: Piece, before: string)
    requires p.range.start <= p.range.end < |file|
    ensures var start, end := p.range.start, p.range.end;
      before + (p.header + Taken(file, start, end, Room(p))) + Remainder(file, NextStart(start, end, Room(p)), end) == before + Part(file, p)
  {
    var start, end, room := p.range.start, p.range.end, Room(p);
    if Length(p.range) > room {
      Slices(file, start, start + room, end);
      Slices(file, start, start + room, end + 1);
    }
    Regroup(before, p.header, Taken(file, start, end, room), Remainder(file, NextStart(start, end, room), end));
  }

  lemma Regroup(a: string, b: string, c: string, d: string)
    ensures a + (b + c) + d == a + (b + (c + d))
    ensures a + c + d == a + (c + d)
  {}

  /** `OutOfRange` stands for the use of an element past the end of the list of ranges, which has no defined outcome. */
  datatype Outcome = Block(text: string) | End | OutOfRange

  /** The generator. Each part's header is handed to it, where the code writes it when the part begins. */
  class NextBlock {
    const file: string
    const pieces: seq<Piece>
    const closing: string
    var start: nat
    var end: nat
    var idx: int
    var sentClosingBoundary: bool
    ghost var emitted: string

    ghost predicate Valid() reads this {
      && Fit(file, pieces) && -1 <= idx <= |pieces|
      && (sentClosingBoundary <==> idx == |pieces|)
      && (if idx == -1 then start >= end && emitted == ""
          else if idx == |pieces| then start >= end && emitted == Parts(file, pieces, |pieces|) + closing
          else && end == pieces[idx].range.end && pieces[idx].range.start <= start <= end + 1
               && emitted + Remainder(file, start, end) == Parts(file, pieces, idx + 1))
    }

    constructor (file: string, pieces: seq<Piece>, closing: string)
      requires Fit(file, pieces)
      ensures Valid() && emitted == "" && idx == -1 && this.file == file && this.pieces == pieces && this.closing == closing
    {
      this.file, this.pieces, this.closing := file, pieces, closing;
      start, end, idx, sentClosingBoundary, emitted := 1, 0, -1, false, "";
    }

    /** The bytes of the current range still to come. */
    ghost function Left(): nat
      requires Valid()
      reads this
    {
      if idx == -1 || idx == |pieces| then 0 else end + 1 - start
    }

    /**
     * One call. Up to the closing delimiter each call emits the next block. The call after that never ends the stream: it
     * goes past the end of the list.
     */
    method Next() returns (r: Outcome)
      requires Valid()
      modifies this
      ensures !r.End?
      ensures r.OutOfRange? <==> old(sentClosingBoundary)
      ensures r.Block? ==> Valid() && emitted == old(emitted) + r.text
      ensures r.Block? ==> idx > old(idx) || (idx == old(idx) && Left() < old(Left()))
    {
      if start < end {
        var more := MoreOfRange();
        return Block(more);
      }
      idx := idx + 1;
      if idx == |pieces| {
        if sentClosingBoundary { return End; }
        if idx > 0 { Spent(file, start, end, emitted); }
        sentClosingBoundary := true;
        emitted := emitted + closing;
        return Block(closing);
      }
      if idx > |pieces| { return OutOfRange; }
      if idx > 0 { Spent(file, start, end, emitted); }
      var first := FirstOfRange();
      return Block(first);
    }

    /** A block that begins a range, with the part's header. */
    method FirstOfRange() returns (text: string)
      requires Fit(file, pieces) && 0 <= idx < |pieces| && !sentClosingBoundary && emitted == Parts(file, pieces, idx)
      modifies this`start, this`end, this`emitted
      ensures Valid() && emitted == old(emitted) + text
    {
      var p := pieces[idx];
      start, end := p.range.start, p.range.end;
      FirstCut(file, p, Parts(file, pieces, idx));
      text := Payload(p.header);
    }

    /** A block that goes on with a range. */
    method MoreOfRange() returns (text: string)
      requires Valid() && start < end
      modifies this`start, this`emitted
      ensures Valid() && emitted == old(emitted) + text && start > old(start)
    {
      Cut(file, start, end, emitted);
      text := Payload("");
    }

    /** The block itself: `body`, then as much of the file as there is room for. */
    method Payload(body: string) returns (text: string)
      requires start <= end < |file|
      modifies this`start, this`emitted
      ensures var room := if STATIC_STREAM_CHUNK_SIZE > |body| then STATIC_STREAM_CHUNK_SIZE - |body| else 0;
        && start == NextStart(old(start), end, room)
        && text == body + Taken(file, old(start), end, room)
        && emitted == old(emitted) + text
    {
      text := body;
      var maxPayload := if STATIC_STREAM_CHUNK_SIZE > |body| then STATIC_STREAM_CHUNK_SIZE - |body| else 0;
      if maxPayload > 0 {
        var blockEnd := if end < start + maxPayload - 1 then end else start + maxPayload - 1;
        text := text + file[start..blockEnd + 1];
        start := blockEnd + 1;
        if blockEnd == end { text := text + CRLF; }
      }
      emitted := emitted + text;
    }
  }

  /** What a connection sends: the body as far as its closing delimiter, after which the next call has no defined outcome. */
  method Emit(src: Source) returns (all: string, afterwards: Outcome)
    requires Served(src)
    ensures all == Body(src) && afterwards == OutOfRange
  {
    var g := new NextBlock(src.file, Pieces(src), Closing(src));
    all := "";
    while !g.sentClosingBoundary
      invariant g.Valid() && all == g.emitted && fresh(g)
      decreases |g.pieces| - g.idx, g.Left()
    {
      var r := g.Next();
      all := all + r.text;
    }
    afterwards := g.Next();
  }
}
