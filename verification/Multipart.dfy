/**
 * Streaming multipart/form-data (section 5.1.1 of RFC 2046): parts handed to handlers while the body arrives,
 * proved against splitting the whole body at once.
 */
module Multipart {
  import opened Wrappers
  import opened Bytes
  import opened ServerConfig
  import opened Hex

  // ---------------------------------------------------------------- splitting a whole body

  const DASHES: seq<byte> := [DASH, DASH]

  /** Where a part's content ends, and whether the delimiter there is the closing one. */
  datatype Hit = Hit(at: nat, end: bool)

  /** The first occurrence of the boundary, if the two bytes after it make it a delimiter. */
  function Delimiter(u: seq<byte>, boundary: seq<byte>): (r: Option<Hit>)
    ensures r.Some? ==> r.value.at + |boundary| + 2 <= |u|
  {
    var i := Find(u, boundary);
    if i == |u| || i + |boundary| + 2 > |u| then None
    else
      var mark := u[i + |boundary|..i + |boundary| + 2];
      if mark == DASHES then Some(Hit(i, true))
      else if mark == CRLF then Some(Hit(i, false))
      else None
  }

  datatype Part = Part(header: seq<byte>, content: seq<byte>)

  datatype Cut = Cut(part: Part, end: bool, rest: seq<byte>)

  /** The part after a delimiter line: header block up to its blank line, content up to the next delimiter. */
  function FirstPart(u: seq<byte>, boundary: seq<byte>): (r: Option<Cut>)
    ensures r.Some? ==> |r.value.rest| + |r.value.part.header| + |r.value.part.content| + |boundary| + 2 == |u|
  {
    var h := Find(u, CRLF2);
    if h == |u| then None
    else
      var v := u[h + 4..];
      match Delimiter(v, boundary)
      case None => None
      case Some(hit) => Some(Cut(Part(u[..h + 4], v[..hit.at]), hit.end, v[hit.at + |boundary| + 2..]))
  }

  function SplitParts(u: seq<byte>, boundary: seq<byte>): Option<seq<Part>>
    decreases |u|
  {
    match FirstPart(u, boundary)
    case None => None
    case Some(cut) =>
      if cut.end then Some([cut.part])
      else match SplitParts(cut.rest, boundary)
        case None => None
        case Some(parts) => Some([cut.part] + parts)
  }

  /** The first line is the boundary without its leading CRLF. */
  predicate StartsWithBoundary(u: seq<byte>, boundary: seq<byte>)
    requires |boundary| >= 4
  {
    |u| >= |boundary| && u[..|boundary|] == boundary[2..] + CRLF
  }

  function SplitBody(u: seq<byte>, boundary: seq<byte>): Option<seq<Part>>
    requires |boundary| >= 4
  {
    if StartsWithBoundary(u, boundary) then SplitParts(u[|boundary|..], boundary) else None
  }

  // ---------------------------------------------------------------- what a client sends

  /** CRLF "--" and a boundary value, which cannot contain a CR. */
  predicate IsBoundary(b: seq<byte>) {
    && 4 < |b| <= MAX_MULTIPART_BOUNDARY_LENGTH
    && b[..4] == CRLF + DASHES
    && forall j :: 1 <= j < |b| ==> b[j] != CR
  }

  predicate IsPart(p: Part, boundary: seq<byte>) {
    && |p.header| >= 4 && Find(p.header, CRLF2) == |p.header| - 4
    && Find(p.content, boundary) == |p.content|
  }

  function RenderParts(parts: seq<Part>, boundary: seq<byte>, epilogue: seq<byte>): seq<byte>
    requires parts != []
  {
    var p := parts[0];
    if |parts| == 1 then p.header + (p.content + boundary + DASHES + epilogue)
    else p.header + (p.content + boundary + CRLF + RenderParts(parts[1..], boundary, epilogue))
  }

  function RenderBody(parts: seq<Part>, boundary: seq<byte>, epilogue: seq<byte>): seq<byte>
    requires parts != [] && |boundary| >= 4
  {
    boundary[2..] + CRLF + RenderParts(parts, boundary, epilogue)
  }

  /** A boundary cannot overlap itself, so the first boundary after clean content is the one that ends it. */
  lemma FindAfterContent(content: seq<byte>, boundary: seq<byte>, rest: seq<byte>)
    requires IsBoundary(boundary) && Find(content, boundary) == |content|
    ensures Find(content + boundary + rest, boundary) == |content|
  {
    var u := content + boundary + rest;
    assert u[|content|..|content| + |boundary|] == boundary;
    forall j: nat | j < |content| ensures !OccursAt(u, boundary, j) {
      if j + |boundary| <= |content| {
        assert u == content + (boundary + rest);
        OccursInPrefix(content, boundary + rest, boundary, j);
      } else {
        var k := |content| - j;
        assert u[j..j + |boundary|][k] == u[|content|] == boundary[0] == CR;
      }
    }
    FindIs(u, boundary, |content|);
  }

  lemma DelimiterAfterContent(content: seq<byte>, boundary: seq<byte>, mark: seq<byte>, rest: seq<byte>)
    requires IsBoundary(boundary) && Find(content, boundary) == |content|
    requires mark == DASHES || mark == CRLF
    ensures var u := content + boundary + mark + rest;
            && Delimiter(u, boundary) == Some(Hit(|content|, mark == DASHES))
            && u[..|content|] == content && u[|content| + |boundary| + 2..] == rest
  {
    var u := content + boundary + mark + rest;
    assert u == content + boundary + (mark + rest);
    FindAfterContent(content, boundary, mark + rest);
    assert u[|content| + |boundary|..|content| + |boundary| + 2] == mark;
  }

  lemma SplitHeader(header: seq<byte>, v: seq<byte>)
    requires |header| >= 4 && Find(header, CRLF2) == |header| - 4
    ensures var u := header + v; Find(u, CRLF2) == |header| - 4 && u[..|header|] == header && u[|header|..] == v
  {
    FindExtends(header, v, CRLF2);
  }

  lemma FirstRendered(p: Part, boundary: seq<byte>, mark: seq<byte>, tail: seq<byte>)
    requires IsBoundary(boundary) && IsPart(p, boundary) && (mark == DASHES || mark == CRLF)
    ensures FirstPart(p.header + (p.content + boundary + mark + tail), boundary) == Some(Cut(p, mark == DASHES, tail))
  {
    DelimiterAfterContent(p.content, boundary, mark, tail);
    SplitHeader(p.header, p.content + boundary + mark + tail);
  }

  lemma SplitCons(u: seq<byte>, boundary: seq<byte>, part: Part, tail: seq<byte>, parts: seq<Part>)
    requires FirstPart(u, boundary) == Some(Cut(part, false, tail)) && SplitParts(tail, boundary) == Some(parts)
    ensures SplitParts(u, boundary) == Some([part] + parts)
  {}

  lemma SplitLast(u: seq<byte>, boundary: seq<byte>, part: Part, tail: seq<byte>)
    requires FirstPart(u, boundary) == Some(Cut(part, true, tail))
    ensures SplitParts(u, boundary) == Some([part])
  {}

  lemma SplitRenderedLast(p: Part, boundary: seq<byte>, epilogue: seq<byte>)
    requires IsBoundary(boundary) && IsPart(p, boundary)
    ensures SplitParts(p.header + (p.content + boundary + DASHES + epilogue), boundary) == Some([p])
  {
    FirstRendered(p, boundary, DASHES, epilogue);
    SplitLast(p.header + (p.content + boundary + DASHES + epilogue), boundary, p, epilogue);
  }

  lemma SplitRenderedCons(p: Part, boundary: seq<byte>, tail: seq<byte>, parts: seq<Part>)
    requires IsBoundary(boundary) && IsPart(p, boundary) && SplitParts(tail, boundary) == Some(parts)
    ensures SplitParts(p.header + (p.content + boundary + CRLF + tail), boundary) == Some([p] + parts)
  {
    FirstRendered(p, boundary, CRLF, tail);
    SplitCons(p.header + (p.content + boundary + CRLF + tail), boundary, p, tail, parts);
  }

  lemma {:induction false} SplitRenderedParts(parts: seq<Part>, boundary: seq<byte>, epilogue: seq<byte>)
    requires IsBoundary(boundary) && parts != []
    requires forall j :: 0 <= j < |parts| ==> IsPart(parts[j], boundary)
    ensures SplitParts(RenderParts(parts, boundary, epilogue), boundary) == Some(parts)
  {
    if |parts| == 1 {
      SplitRenderedLast(parts[0], boundary, epilogue);
      assert parts == [parts[0]];
    } else {
      SplitRenderedParts(parts[1..], boundary, epilogue);
      SplitRenderedCons(parts[0], boundary, RenderParts(parts[1..], boundary, epilogue), parts[1..]);
      assert parts == [parts[0]] + parts[1..];
    }
  }

  /** Splitting what a client rendered gives back its parts, for any contents that never contain the boundary. */
  lemma SplitRender(parts: seq<Part>, boundary: seq<byte>, epilogue: seq<byte>)
    requires IsBoundary(boundary) && parts != []
    requires forall j :: 0 <= j < |parts| ==> IsPart(parts[j], boundary)
    ensures SplitBody(RenderBody(parts, boundary, epilogue), boundary) == Some(parts)
  {
    var u := RenderBody(parts, boundary, epilogue);
    assert u[..|boundary|] == boundary[2..] + CRLF;
    assert u[|boundary|..] == RenderParts(parts, boundary, epilogue);
    SplitRenderedParts(parts, boundary, epilogue);
  }

  /** A boundary with the two bytes that make it a delimiter. */
  predicate DelimiterAt(u: seq<byte>, boundary: seq<byte>, i: nat) {
    && i + |boundary| + 2 <= |u| && OccursAt(u, boundary, i)
    && (u[i + |boundary|..i + |boundary| + 2] == DASHES || u[i + |boundary|..i + |boundary| + 2] == CRLF)
  }

  predicate NoDelimiter(u: seq<byte>, boundary: seq<byte>) {
    forall i: nat :: i < |u| ==> !DelimiterAt(u, boundary, i)
  }

  /** A delimiter in a window is one of the bytes the window is taken from. */
  lemma DelimiterInWindow(passed: seq<byte>, span: seq<byte>, rest: seq<byte>, boundary: seq<byte>)
    requires IsBoundary(boundary) && Delimiter(span, boundary).Some?
    ensures !NoDelimiter(passed + (span + rest), boundary)
  {
    var i, k := Delimiter(span, boundary).value.at, |passed|;
    var u := passed + (span + rest);
    SliceInside(passed, span, rest, i, i + |boundary|);
    SliceInside(passed, span, rest, i + |boundary|, i + |boundary| + 2);
    assert DelimiterAt(u, boundary, k + i);
  }

  lemma SamePrefix(u: seq<byte>, a: seq<byte>, b: seq<byte>, k: nat)
    requires u == a + b && k <= |a|
    ensures u[..k] == a[..k]
  {
    assert forall i :: 0 <= i < k ==> u[..k][i] == a[..k][i];
  }

  lemma SliceInside(a: seq<byte>, b: seq<byte>, c: seq<byte>, i: nat, j: nat)
    requires i <= j <= |b|
    ensures (a + (b + c))[|a| + i..|a| + j] == b[i..j]
  {
    assert forall k :: 0 <= k < j - i ==> (a + (b + c))[|a| + i..|a| + j][k] == b[i..j][k];
  }

  // ---------------------------------------------------------------- the streaming reader

  function Min(a: nat, b: nat): nat { if a < b then a else b }

  /** The request's body stream: each read hands over an arbitrary non-empty part of what is left. */
  class BodySource {
    var rest: seq<byte>
    /** A read that returned nothing marks the stream as exhausted for good. */
    var exhausted: bool
    /** The least a read returns, when there is that much and room for it. */
    const minBurst: nat

    constructor (rest: seq<byte>, minBurst: nat)
      ensures this.rest == rest && !exhausted && this.minBurst == minBurst
    { this.rest, exhausted, this.minBurst := rest, false, minBurst; }

    method Read(space: nat) returns (data: seq<byte>)
      modifies this
      ensures old(exhausted) || space == 0 || old(rest) == [] ==> data == [] && rest == old(rest) && exhausted
      ensures !old(exhausted) && space > 0 && old(rest) != [] ==>
                && 0 < |data| <= space && data + rest == old(rest) && !exhausted
                && |data| >= Min(minBurst, Min(space, |old(rest)|))
    {
      if exhausted || space == 0 || rest == [] {
        exhausted := true;
        return [];
      }
      var n: nat :| 0 < n <= space && n <= |rest| && n >= Min(minBurst, Min(space, |rest|));
      data, rest := rest[..n], rest[n..];
    }
  }

  class BufferedReader {
    const buffer: array<byte>
    const body: BodySource
    var validBytes: nat

    ghost predicate Valid() reads this { validBytes <= buffer.Length }

    function Window(): seq<byte>
      reads this, buffer
      requires Valid()
    { buffer[..validBytes] }

    ghost function Unread(): seq<byte>
      reads this, buffer, body
      requires Valid()
    { Window() + body.rest }

    constructor (body: BodySource)
      ensures Valid() && Window() == [] && this.body == body && fresh(buffer) && buffer.Length == MULTIPART_BUFFER_SIZE
    {
      this.body := body;
      buffer := new byte[MULTIPART_BUFFER_SIZE];
      validBytes := 0;
    }

    /** Appends what the body stream gives to the window. */
    method Read() returns (n: nat)
      requires Valid()
      modifies this, buffer, body
      ensures Valid() && |Window()| == |old(Window())| + n
      ensures Unread() == old(Unread()) && old(Window()) <= Window()
      ensures |body.rest| == |old(body.rest)| - n
      ensures n == 0 ==> body.exhausted && (old(body.exhausted) || old(body.rest) == [] || |old(Window())| == buffer.Length)
      ensures n > 0 ==> !body.exhausted
      ensures n > 0 ==> n >= Min(body.minBurst, Min(buffer.Length - |old(Window())|, |old(body.rest)|))
    {
      ghost var window := Window();
      var data := body.Read(buffer.Length - validBytes);
      n := |data|;
      forall j | 0 <= j < n { buffer[validBytes + j] := data[j]; }
      validBytes := validBytes + n;
      assert buffer[..validBytes] == window + data;
    }

    /** `std::memmove` of the window's tail to the front of the buffer. */
    method ConsumeBytes(n: nat)
      requires Valid() && n <= validBytes
      modifies this, buffer
      ensures Valid() && Window() == old(Window())[n..] && Unread() == old(Unread())[n..]
    {
      ghost var window := Window();
      for j := 0 to validBytes - n
        modifies buffer
        invariant forall k :: 0 <= k < j ==> buffer[k] == window[k + n]
        invariant forall k :: j <= k < validBytes ==> buffer[k] == window[k]
      {
        buffer[j] := buffer[j + n];
      }
      validBytes := validBytes - n;
      assert Window() == window[n..];
    }
  }

  /**
   * How reading one part ends. `WindowTooShort` is the unsigned subtraction of the delimiter's size from a smaller
   * window; `Spinning` is a loop that no later read can end.
   */
  datatype PartResult = Finished(totalConsumed: nat, end: bool) | TooLarge | WindowTooShort | Spinning

  class PartReader {
    const boundary: seq<byte>
    const reader: BufferedReader
    const maxSize: nat

    constructor (boundary: seq<byte>, reader: BufferedReader, maxSize: nat)
      ensures this.boundary == boundary && this.reader == reader && this.maxSize == maxSize
    { this.boundary, this.reader, this.maxSize := boundary, reader, maxSize; }

    ghost predicate Ready()
      reads reader, reader.buffer, reader.body
    {
      && reader.Valid() && IsBoundary(boundary) && reader.buffer.Length == MULTIPART_BUFFER_SIZE
      && reader.validBytes < reader.buffer.Length && (reader.body.exhausted ==> reader.body.rest == [])
    }

    ghost function Full(): nat { |boundary| + 2 }

    /**
     * How both readers end, given the bytes that were unread and how many of them the first window had. A window shorter
     * than a delimiter is the first one or none. Otherwise a part with a delimiter ends there, within the limit or not;
     * and bytes without any delimiter are searched for ever, unless the limit comes first.
     */
    ghost predicate EndsAt(u: seq<byte>, r: PartResult, first: nat) {
      var hit := Delimiter(u, boundary);
      && (r.WindowTooShort? <==> first < Full())
      && (first >= Full() && hit.Some? ==>
            r == if hit.value.at + Full() <= maxSize then Finished(hit.value.at + Full(), hit.value.end) else TooLarge)
      && (first >= Full() && NoDelimiter(u, boundary) ==> r == if |u| - Full() <= maxSize then Spinning else TooLarge)
      && (reader.body.minBurst >= Full() && |u| >= Full() ==> first >= Full())
    }

    /** The same for the turn with which the loop ends, the first window aside. */
    ghost predicate TurnEnds(u: seq<byte>, r: PartResult) {
      var hit := Delimiter(u, boundary);
      && (hit.Some? ==>
            && (r.Finished? ==> r == Finished(hit.value.at + Full(), hit.value.end) && hit.value.at + Full() <= maxSize)
            && (r.TooLarge? ==> hit.value.at + Full() > maxSize)
            && !r.Spinning?)
      && (NoDelimiter(u, boundary) ==>
            && !r.Finished?
            && (r.TooLarge? ==> |u| - Full() > maxSize)
            && (r.Spinning? ==> |u| - Full() <= maxSize))
    }

    /** The head of both loops: read, then look for the boundary in everything buffered. */
    method NextWindow(ghost u: seq<byte>, ghost passed: seq<byte>, ghost hit: Option<Hit>) returns (n: nat, span: seq<byte>, found: Option<Hit>)
      requires Ready() && u == passed + reader.Unread() && hit == Delimiter(u, boundary)
      requires hit.Some? ==> |passed| <= hit.value.at
      modifies reader, reader.buffer, reader.body
      ensures reader.Valid() && span == reader.Window() && u == passed + reader.Unread()
      ensures |span| == |old(reader.Window())| + n && |reader.body.rest| == |old(reader.body.rest)| - n
      ensures n == 0 ==> old(reader.body.rest) == []
      ensures reader.body.exhausted ==> reader.body.rest == []
      ensures reader.body.minBurst >= |boundary| + 2 && |u| - |passed| >= |boundary| + 2 ==> |span| >= |boundary| + 2
      ensures found.Some? ==> !NoDelimiter(u, boundary)
      ensures found.None? && hit.Some? ==> hit.value.at + |boundary| + 2 > |passed| + |span|
      ensures found.Some? ==> found.value.at + |boundary| + 2 <= |span| && Find(u, boundary) < |u|
      ensures found.Some? && hit.Some? ==> hit.value == Hit(|passed| + found.value.at, found.value.end)
    {
      n := reader.Read();
      span := reader.Window();
      found := FindBoundary(span);
      SearchWindow(u, |passed|, span, reader.body.rest);
      if found.Some? { DelimiterInWindow(passed, span, reader.body.rest, boundary); }
    }

    /** Moves `k` bytes of the window out of it. */
    method Pass(ghost u: seq<byte>, ghost passed: seq<byte>, k: nat) returns (bytes: seq<byte>)
      requires reader.Valid() && u == passed + reader.Unread() && k <= |reader.Window()|
      modifies reader, reader.buffer
      ensures reader.Valid() && |reader.Window()| == |old(reader.Window())| - k
      ensures bytes == old(reader.Window())[..k] && u == passed + bytes + reader.Unread()
    {
      ghost var unread := reader.Unread();
      bytes := reader.Window()[..k];
      reader.ConsumeBytes(k);
      assert unread == bytes + reader.Unread();
    }

    lemma PrefixOf(u: seq<byte>, passed: seq<byte>, bytes: seq<byte>, rest: seq<byte>, k: nat)
      requires u == passed + bytes + rest && k <= |bytes|
      ensures passed + bytes[..k] <= u && rest == u[|passed| + |bytes|..]
    {}

    /**
     * One turn of the loop in `readAndDo` and `drainTillBoundary`: the content bytes it moves out of the window,
     * and how the loop ends if it does. (`drainTillBoundary` checks the limit after consuming, not before; once
     * the limit is exceeded the request has failed and the window is not looked at again.)
     */
    method Turn(ghost u: seq<byte>, ghost passed: seq<byte>, ghost hit: Option<Hit>, totalConsumed: nat)
      returns (content: seq<byte>, r: Option<PartResult>, ghost size: nat)
      requires Ready() && u == passed + reader.Unread() && hit == Delimiter(u, boundary)
      requires totalConsumed == |passed| <= maxSize && (hit.Some? ==> |passed| <= hit.value.at)
      modifies reader, reader.buffer, reader.body
      ensures size >= |old(reader.Window())| && (r == Some(WindowTooShort) <==> size < Full())
      ensures r == Some(WindowTooShort) ==> reader.Valid() && |reader.Window()| == size
      ensures reader.body.minBurst >= Full() && |u| - |passed| >= Full() ==> size >= Full()
      ensures r.None? ==> Ready() && u == passed + content + reader.Unread() && |reader.Window()| >= Full()
      ensures r.None? ==> |passed| + |content| <= maxSize && (hit.Some? ==> |passed| + |content| <= hit.value.at)
      ensures r.None? ==> |reader.body.rest| < |old(reader.body.rest)|
                          || (|reader.body.rest| == |old(reader.body.rest)| && |reader.Window()| < |old(reader.Window())|)
      ensures r.Some? ==> TurnEnds(u, r.value) && (!r.value.Finished? ==> content == []) && passed + content <= u
      ensures r.Some? && r.value.Finished? ==>
                && Ready() && Find(u, boundary) < |u|
                && r.value.totalConsumed == |passed| + |content| + |boundary| + 2 <= |u|
                && reader.Unread() == u[r.value.totalConsumed..]
                && (hit.Some? ==> |passed| + |content| == hit.value.at)
    {
      var fullBoundarySize := |boundary| + 2;
      var n, span, found := NextWindow(u, passed, hit);
      size := |span|;
      if found.None? {
        if |span| < fullBoundarySize { return [], Some(WindowTooShort), size; }
        var k := |span| - fullBoundarySize;
        if n == 0 && k == 0 { return [], Some(Spinning), size; }
        if totalConsumed + k > maxSize { return [], Some(TooLarge), size; }
        content := Pass(u, passed, k);
        return content, None, size;
      } else {
        var endOfPart := found.value.at;
        var endOfBoundary := endOfPart + fullBoundarySize;
        if totalConsumed + endOfBoundary > maxSize { return [], Some(TooLarge), size; }
        var bytes := Pass(u, passed, endOfBoundary);
        PrefixOf(u, passed, bytes, reader.Unread(), endOfPart);
        return bytes[..endOfPart], Some(Finished(totalConsumed + endOfBoundary, found.value.end)), size;
      }
    }

    /**
     * `readAndDo`: passes the content on as it arrives, holding back a tail in which a delimiter may still be split.
     * `first` is the size of the first window.
     */
    method ReadAndDo() returns (delivered: seq<byte>, r: PartResult, ghost first: nat)
      requires Ready()
      modifies reader, reader.buffer, reader.body
      ensures EndsAt(old(reader.Unread()), r, first) && first >= |old(reader.Window())|
      ensures r.WindowTooShort? ==> reader.Valid() && |reader.Window()| == first
      ensures r.Finished? ==>
                && Ready() && Find(old(reader.Unread()), boundary) < |old(reader.Unread())|
                && r.totalConsumed <= |old(reader.Unread())| && reader.Unread() == old(reader.Unread())[r.totalConsumed..]
      ensures delivered <= old(reader.Unread())
      ensures var hit := Delimiter(old(reader.Unread()), boundary);
              hit.Some? ==> |delivered| <= hit.value.at && (r.Finished? ==> |delivered| == hit.value.at)
      ensures r.WindowTooShort? ==> delivered == []
    {
      ghost var u, hit := reader.Unread(), Delimiter(reader.Unread(), boundary);
      var totalConsumed: nat := 0;
      ghost var turns: nat := 0;
      delivered, first := [], 0;
      while true
        invariant Ready() && u == delivered + reader.Unread() && totalConsumed == |delivered| <= maxSize
        invariant hit.Some? ==> |delivered| <= hit.value.at
        invariant if turns == 0 then delivered == [] && |reader.Window()| == |old(reader.Window())|
                  else |reader.Window()| >= Full() && first >= Full() && first >= |old(reader.Window())|
        decreases |reader.body.rest|, |reader.Window()|
      {
        var content, end;
        ghost var size;
        content, end, size := Turn(u, delivered, hit, totalConsumed);
        if turns == 0 { first := size; }
        turns := turns + 1;
        delivered := delivered + content;
        if end.Some? { return delivered, end.value, first; }
        totalConsumed := totalConsumed + |content|;
      }
    }

    /** `drainTillBoundary`: the same search for a part no handler wants. */
    method DrainTillBoundary() returns (r: PartResult, ghost first: nat)
      requires Ready()
      modifies reader, reader.buffer, reader.body
      ensures EndsAt(old(reader.Unread()), r, first) && first >= |old(reader.Window())|
      ensures r.WindowTooShort? ==> reader.Valid() && |reader.Window()| == first
      ensures r.Finished? ==>
                && Ready() && Find(old(reader.Unread()), boundary) < |old(reader.Unread())|
                && r.totalConsumed <= |old(reader.Unread())| && reader.Unread() == old(reader.Unread())[r.totalConsumed..]
    {
      ghost var u, passed, hit := reader.Unread(), [], Delimiter(reader.Unread(), boundary);
      var totalConsumed: nat := 0;
      ghost var turns: nat := 0;
      first := 0;
      while true
        invariant Ready() && u == passed + reader.Unread() && totalConsumed == |passed| <= maxSize
        invariant hit.Some? ==> |passed| <= hit.value.at
        invariant if turns == 0 then passed == [] && |reader.Window()| == |old(reader.Window())|
                  else |reader.Window()| >= Full() && first >= Full() && first >= |old(reader.Window())|
        decreases |reader.body.rest|, |reader.Window()|
      {
        var content, end;
        ghost var size;
        content, end, size := Turn(u, passed, hit, totalConsumed);
        if turns == 0 { first := size; }
        turns := turns + 1;
        passed := passed + content;
        if end.Some? { return end.value, first; }
        totalConsumed := totalConsumed + |content|;
      }
    }

    /** `findBoundary`: only the first occurrence in the window counts, and only with two bytes after it. */
    function FindBoundary(span: seq<byte>): (r: Option<Hit>)
      ensures r == Delimiter(span, boundary)
    {
      var i := Find(span, boundary);
      if i == |span| then None
      else
        var boundaryEnd := i + |boundary|;
        if |span| - boundaryEnd < 2 then None
        else if span[boundaryEnd] == DASH && span[boundaryEnd + 1] == DASH then Some(Hit(i, true))
        else if span[boundaryEnd] == CR && span[boundaryEnd + 1] == LF then Some(Hit(i, false))
        else None
    }

    lemma DelimiterAfterDrop(u: seq<byte>, k: nat)
      requires IsBoundary(boundary) && Delimiter(u, boundary).Some? && k <= Delimiter(u, boundary).value.at
      ensures var hit := Delimiter(u, boundary).value; Delimiter(u[k..], boundary) == Some(Hit(hit.at - k, hit.end))
    {
      var i := Delimiter(u, boundary).value.at;
      FindAfterDrop(u, boundary, k);
      assert u[k..][i - k + |boundary|..i - k + |boundary| + 2] == u[i + |boundary|..i + |boundary| + 2];
    }

    lemma WindowSearch(span: seq<byte>, rest: seq<byte>)
      requires IsBoundary(boundary)
      ensures Delimiter(span, boundary).Some? ==> Delimiter(span + rest, boundary) == Delimiter(span, boundary)
      ensures Delimiter(span, boundary).None? && Delimiter(span + rest, boundary).Some? ==>
                Delimiter(span + rest, boundary).value.at + |boundary| + 2 > |span|
    {
      var w := span + rest;
      var i := Find(span, boundary);
      if i < |span| {
        FindExtends(span, rest, boundary);
        if i + |boundary| + 2 <= |span| {
          assert w[i + |boundary|..i + |boundary| + 2] == span[i + |boundary|..i + |boundary| + 2];
        }
      } else {
        FindAfterMiss(span, rest, boundary);
      }
    }

    /**
     * Searching a window that starts `k` bytes into `u`: a hit is the delimiter of `u`, and a miss says that the
     * delimiter, if there is one, ends beyond the window. So the window's last `|boundary| + 2` bytes are all
     * that must be held back.
     */
    lemma SearchWindow(u: seq<byte>, k: nat, span: seq<byte>, rest: seq<byte>)
      requires IsBoundary(boundary) && k <= |u| && u[k..] == span + rest
      requires Delimiter(u, boundary).Some? ==> k <= Delimiter(u, boundary).value.at
      ensures match Delimiter(span, boundary)
              case None => Delimiter(u, boundary).Some? ==> Delimiter(u, boundary).value.at + |boundary| + 2 > k + |span|
              case Some(found) =>
                && Find(u, boundary) < |u|
                && (Delimiter(u, boundary).Some? ==> Delimiter(u, boundary).value == Hit(k + found.at, found.end))
    {
      WindowSearch(span, rest);
      if Delimiter(u, boundary).Some? { DelimiterAfterDrop(u, k); }
      if Delimiter(span, boundary).Some? { OccursAfterDrop(u, boundary, k, Find(u[k..], boundary)); }
    }
  }

  // ---------------------------------------------------------------- the whole request

  /** What a part's headers ask for: a handler with a size limit, a drain with a size limit, or an exception. */
  datatype Handling = Deliver(maxSize: nat) | Discard(maxSize: nat) | Reject

  /** `NeverEnds` is a loop that no later read can end, `Undefined` the use of a wrapped size on the buffer. */
  datatype Outcome =
    | Ok | NoInitialBoundary | TooManyParts | HeadersTooLarge | MalformedHeaders | RequestTooLarge | NeverEnds | Undefined

  /** What reaches a handler of a part: nothing, if the part is one no handler wants. */
  function Received(p: Part, handling: seq<byte> -> Handling): Part {
    if handling(p.header).Deliver? then p else Part(p.header, [])
  }

  ghost predicate Handled(got: seq<Part>, parts: seq<Part>, handling: seq<byte> -> Handling) {
    |got| == |parts| && forall j :: 0 <= j < |got| ==> got[j] == Received(parts[j], handling)
  }

  /** The limits on one part: headers that fit the window, and the size limit its headers select. */
  ghost predicate Fits(p: Part, boundary: seq<byte>, handling: seq<byte> -> Handling) {
    && |p.header| <= MULTIPART_BUFFER_SIZE
    && !handling(p.header).Reject?
    && |p.content| + |boundary| + 2 <= handling(p.header).maxSize
  }

  ghost predicate WithinLimits(parts: seq<Part>, boundary: seq<byte>, handling: seq<byte> -> Handling) {
    forall j :: 0 <= j < |parts| ==> Fits(parts[j], boundary, handling)
  }

  class MultipartParser {
    const boundary: seq<byte>
    const contentLength: nat
    const reader: BufferedReader

    constructor (boundary: seq<byte>, contentLength: nat, body: BodySource)
      requires IsBoundary(boundary) && !body.exhausted
      ensures this.boundary == boundary && this.contentLength == contentLength && fresh(reader) && fresh(reader.buffer)
      ensures Ready() && reader.body == body && reader.Unread() == body.rest
    {
      this.boundary, this.contentLength := boundary, contentLength;
      reader := new BufferedReader(body);
    }

    ghost predicate Ready()
      reads reader, reader.buffer, reader.body
    {
      && reader.Valid() && IsBoundary(boundary) && reader.buffer.Length == MULTIPART_BUFFER_SIZE
      && reader.validBytes < reader.buffer.Length && (reader.body.exhausted ==> reader.body.rest == [])
    }

    /** The header block of the next part, which must fit the window. */
    method ReadPartHeader() returns (header: seq<byte>, r: Outcome)
      requires Ready()
      modifies reader, reader.buffer, reader.body
      ensures r.Ok? || r.HeadersTooLarge? || r.MalformedHeaders?
      ensures var u := old(reader.Unread());
              var h := Find(u, CRLF2);
              && (r.Ok? <==> h < |u| && h + 4 <= MULTIPART_BUFFER_SIZE)
              && (r.Ok? ==> Ready() && header == u[..h + 4] && reader.Unread() == u[h + 4..])
    {
      ghost var u := reader.Unread();
      var n := reader.Read();
      var span := reader.Window();
      var headerEnd := Find(span, CRLF2);
      while headerEnd == |span|
        invariant reader.Valid() && span == reader.Window() && headerEnd == Find(span, CRLF2)
        invariant reader.Unread() == u && (reader.body.exhausted ==> reader.body.rest == [])
        decreases |reader.body.rest|
      {
        FindAfterMiss(span, reader.body.rest, CRLF2);
        if |span| > MAX_MULTIPART_PART_HEADER_SIZE { return [], HeadersTooLarge; }
        n := reader.Read();
        span := reader.Window();
        if n == 0 {
          assert reader.body.rest == [] ==> span == u;
          return [], MalformedHeaders;
        }
        headerEnd := Find(span, CRLF2);
      }
      FindExtends(span, reader.body.rest, CRLF2);
      var headerSize := headerEnd + 4;
      if headerSize > MAX_MULTIPART_PART_HEADER_SIZE { return [], HeadersTooLarge; }
      header := span[..headerSize];
      assert header == u[..headerSize];
      reader.ConsumeBytes(headerSize);
      return header, Ok;
    }

    ghost function Full(): nat { |boundary| + 2 }

    /** What a first window shorter than a delimiter comes to: the wrapped size is over the limit, or is used. */
    function ShortWindow(kind: Handling): Outcome
      requires !kind.Reject?
    {
      if kind.Deliver? && kind.maxSize < SIZE_T - (|boundary| + 2) then RequestTooLarge else Undefined
    }

    /** A header block that fits the window and asks for the content. */
    ghost predicate Wanted(u: seq<byte>, handling: seq<byte> -> Handling) {
      var h := Find(u, CRLF2);
      h < |u| && h + 4 <= MULTIPART_BUFFER_SIZE && !handling(u[..h + 4]).Reject?
    }

    /** How reading a part's content ends, from the size of its first window. */
    ghost predicate ContentEnds(u: seq<byte>, handling: seq<byte> -> Handling, first: nat, r: Outcome)
      requires Wanted(u, handling)
    {
      var h := Find(u, CRLF2);
      var content, kind := u[h + 4..], handling(u[..h + 4]);
      && (first < Full() ==> r == ShortWindow(kind))
      && (first >= Full() && NoDelimiter(content, boundary) ==> r == if |content| - Full() <= kind.maxSize then NeverEnds else RequestTooLarge)
      && (first >= Full() && Delimiter(content, boundary).Some? ==>
            r == if Delimiter(content, boundary).value.at + Full() <= kind.maxSize then Ok else RequestTooLarge)
    }

    /**
     * One turn of the loop in `go`: a header block, then its content to a handler or to nowhere. `first` is the size of
     * the first window of the content, if it comes to that.
     */
    method ReadPart(handling: seq<byte> -> Handling) returns (part: Part, end: bool, consumed: nat, r: Outcome, ghost first: Option<nat>)
      requires Ready()
      modifies reader, reader.buffer, reader.body
      ensures r.Ok? ==> Ready()
      ensures first.Some? <==> Wanted(old(reader.Unread()), handling)
      ensures r.Ok? ==> first.Some?
      ensures first.Some? && first.value < Full() ==> reader.Valid() && |reader.Window()| == first.value
      ensures first.Some? ==> ContentEnds(old(reader.Unread()), handling, first.value, r)
      ensures var cut := FirstPart(old(reader.Unread()), boundary);
              r.Ok? && cut.Some? ==>
                && reader.Unread() == cut.value.rest && end == cut.value.end && part == Received(cut.value.part, handling)
                && (!end ==> consumed + |cut.value.rest| == |old(reader.Unread())|)
                && consumed <= |old(reader.Unread())|
      ensures var cut := FirstPart(old(reader.Unread()), boundary);
              first.Some? && cut.Some? && reader.body.minBurst >= Full() ==> first.value >= Full()
    {
      ghost var u := reader.Unread();
      var header;
      part, end, consumed, first := Part([], []), false, 0, None;
      header, r := ReadPartHeader();
      if !r.Ok? { return; }
      var kind := handling(header);
      if kind.Reject? { r := MalformedHeaders; return; }
      var content, result, size := ReadContent(kind);
      first := Some(size);
      if result.Finished? {
        part, end := Part(header, content), result.end;
        // A drained last part is not added to the total.
        consumed := |header| + if kind.Discard? && end then 0 else result.totalConsumed;
      }
      r := OutcomeOf(result, kind);
    }

    function OutcomeOf(result: PartResult, kind: Handling): Outcome
      requires !kind.Reject?
    {
      match result
      case Finished(_, _) => Ok
      case TooLarge => RequestTooLarge
      case Spinning => NeverEnds
      case WindowTooShort => ShortWindow(kind)
    }

    /** The content, to a handler or to nowhere. */
    method ReadContent(kind: Handling) returns (content: seq<byte>, result: PartResult, ghost first: nat)
      requires Ready() && !kind.Reject?
      modifies reader, reader.buffer, reader.body
      ensures result.Finished? ==> Ready()
      ensures first < Full() <==> result.WindowTooShort?
      ensures first < Full() ==> reader.Valid() && |reader.Window()| == first
      ensures var u := old(reader.Unread());
              var hit := Delimiter(u, boundary);
              && (first >= Full() && NoDelimiter(u, boundary) ==> result == if |u| - Full() <= kind.maxSize then Spinning else TooLarge)
              && (first >= Full() && hit.Some? ==>
                    result == if hit.value.at + Full() <= kind.maxSize then Finished(hit.value.at + Full(), hit.value.end) else TooLarge)
              && (hit.Some? && reader.body.minBurst >= Full() ==> first >= Full())
              && (result.Finished? ==> result.totalConsumed <= |u| && reader.Unread() == u[result.totalConsumed..])
              && (result.Finished? && hit.Some? ==> content == if kind.Deliver? then u[..hit.value.at] else [])
    {
      var partReader := new PartReader(boundary, reader, kind.maxSize);
      ghost var u := reader.Unread();
      if kind.Deliver? {
        content, result, first := partReader.ReadAndDo();
        assert content == u[..|content|];
      } else {
        content := [];
        result, first := partReader.DrainTillBoundary();
      }
    }

    /** The delimiter that opens the body, without its leading CRLF. */
    method ReadInitialBoundary() returns (r: Outcome)
      requires Ready()
      modifies reader, reader.buffer, reader.body
      ensures r.Ok? <==> StartsWithBoundary(old(reader.Unread()), boundary)
      ensures r.NeverEnds? <==> |old(reader.Unread())| < |boundary|
      ensures r.Ok? ==> Ready() && reader.Unread() == old(reader.Unread())[|boundary|..]
    {
      ghost var u := reader.Unread();
      var span: seq<byte> := [];
      while |span| < |boundary|
        invariant reader.Valid() && reader.Unread() == u && (reader.body.exhausted ==> reader.body.rest == [])
        invariant |span| < |boundary| ==> Ready()
        invariant span == [] || span == reader.Window()
        decreases |reader.body.rest|, |boundary| - |span|
      {
        var n := reader.Read();
        span := reader.Window();
        if n == 0 && |span| < |boundary| { return NeverEnds; }
      }
      SamePrefix(u, span, reader.body.rest, |boundary|);
      if span[|boundary| - 1] != LF || span[|boundary| - 2] != CR || span[..|boundary| - 2] != boundary[2..] {
        assert u[..|boundary|][..|boundary| - 2] == span[..|boundary| - 2];
        return NoInitialBoundary;
      }
      assert u[..|boundary|] == boundary[2..] + CRLF;
      reader.ConsumeBytes(|boundary|);
      return Ok;
    }

    /** Every part is within its limits, and no first window that was looked at was shorter than a delimiter. */
    ghost predicate Readable(parts: seq<Part>, firsts: seq<nat>, handling: seq<byte> -> Handling) {
      && |parts| <= MAX_MULTIPART_PARTS && WithinLimits(parts, boundary, handling)
      && AllFull(firsts)
    }

    ghost predicate AllFull(firsts: seq<nat>) { forall j :: 0 <= j < |firsts| ==> firsts[j] >= Full() }

    /**
     * The whole parse of a body that the standard splits into parts, for every fragmentation. `firsts` are the sizes of
     * the first windows of the parts whose content was reached. The parse succeeds if and only if the parts are within the
     * limits and none of these windows is shorter than a delimiter, however little the later reads bring; and then each
     * part reaches its handler, in order and byte for byte.
     */
    method Go(handling: seq<byte> -> Handling) returns (got: seq<Part>, r: Outcome, ghost firsts: seq<nat>)
      requires Ready()
      modifies reader, reader.buffer, reader.body
      ensures var parts := SplitBody(old(reader.Unread()), boundary);
              parts.Some? && |old(reader.Unread())| <= contentLength ==>
                && (r.Ok? <==> Readable(parts.value, firsts, handling))
                && (r.Ok? ==> Handled(got, parts.value, handling) && |firsts| == |parts.value|)
                && (reader.body.minBurst >= Full() ==> AllFull(firsts))
      ensures !AllFull(firsts) ==> reader.Valid() && |reader.Window()| == firsts[|firsts| - 1] < Full()
      ensures |old(reader.Unread())| < |boundary| ==> r.NeverEnds?
    {
      got, firsts := [], [];
      r := ReadInitialBoundary();
      if !r.Ok? { return; }
      got, r, firsts := ReadParts(handling);
    }

    /** The parts behind the first boundary. */
    method ReadParts(handling: seq<byte> -> Handling) returns (got: seq<Part>, r: Outcome, ghost firsts: seq<nat>)
      requires Ready()
      modifies reader, reader.buffer, reader.body
      ensures var parts := SplitParts(old(reader.Unread()), boundary);
              parts.Some? && |boundary| + |old(reader.Unread())| <= contentLength ==>
                && (r.Ok? <==> Readable(parts.value, firsts, handling))
                && (r.Ok? ==> Handled(got, parts.value, handling) && |firsts| == |parts.value|)
                && (reader.body.minBurst >= Full() ==> AllFull(firsts))
      ensures !AllFull(firsts) ==> reader.Valid() && |reader.Window()| == firsts[|firsts| - 1] < Full()
    {
      ghost var u := reader.Unread();
      ghost var parts := SplitParts(u, boundary);
      got, firsts := [], [];
      var contentConsumed := |boundary|;
      var partCount := 0;
      ghost var done: seq<Part> := [];
      var end := false;
      while contentConsumed < contentLength
        invariant Ready() && !end
        invariant parts.Some? ==> contentConsumed + |reader.Unread()| == |boundary| + |u|
        invariant parts.Some? ==> InOrder(parts.value, done, got, firsts, handling)
        invariant AllFull(firsts) && partCount == |got| <= MAX_MULTIPART_PARTS
        decreases MAX_MULTIPART_PARTS - partCount
      {
        partCount := partCount + 1;
        if parts.Some? { NextPart(parts.value, done, reader.Unread(), handling); }
        if partCount > MAX_MULTIPART_PARTS { r := TooManyParts; return; }
        ghost var cut := FirstPart(reader.Unread(), boundary);
        if parts.Some? { PartEnds(reader.Unread(), cut.value, handling); }
        var part, consumed;
        ghost var first;
        part, end, consumed, r, first := ReadPart(handling);
        if first.Some? { firsts := firsts + [first.value]; }
        if !r.Ok? {
          if parts.Some? { PartRefused(parts.value, |done|, firsts, first, handling); }
          return;
        }
        got := got + [part];
        if parts.Some? {
          HandledSnoc(got, done, part, cut.value.part, handling);
          WithinLimitsSnoc(done, cut.value.part, handling);
          done := done + [cut.value.part];
        }
        contentConsumed := contentConsumed + consumed;
        if end { break; }
      }
      if contentConsumed > contentLength { r := RequestTooLarge; return; }
      r := Ok;
    }

    /** The parts read so far have been handled, and the others are what is still unread. */
    ghost predicate InOrder(parts: seq<Part>, done: seq<Part>, got: seq<Part>, firsts: seq<nat>, handling: seq<byte> -> Handling)
      requires Ready()
      reads reader, reader.buffer, reader.body
    {
      var rest := SplitParts(reader.Unread(), boundary);
      && rest.Some? && parts == done + rest.value && Handled(got, done, handling)
      && WithinLimits(done, boundary, handling) && |firsts| == |done|
    }

    lemma PartRefused(parts: seq<Part>, i: nat, firsts: seq<nat>, first: Option<nat>, handling: seq<byte> -> Handling)
      requires i < |parts| && (first.Some? ==> firsts != [] && firsts[|firsts| - 1] == first.value)
      requires !Fits(parts[i], boundary, handling) || (first.Some? && first.value < Full())
      ensures !Readable(parts, firsts, handling)
    {}

    lemma WithinLimitsSnoc(done: seq<Part>, p: Part, handling: seq<byte> -> Handling)
      requires WithinLimits(done, boundary, handling) && Fits(p, boundary, handling)
      ensures WithinLimits(done + [p], boundary, handling)
    {}

    /** What a part's limits mean for reading it. */
    lemma PartEnds(u: seq<byte>, cut: Cut, handling: seq<byte> -> Handling)
      requires IsBoundary(boundary) && FirstPart(u, boundary) == Some(cut)
      ensures Fits(cut.part, boundary, handling) ==> Wanted(u, handling)
      ensures Wanted(u, handling) ==> forall first: nat, r :: ContentEnds(u, handling, first, r) && first >= Full() ==>
                (r.Ok? <==> Fits(cut.part, boundary, handling))
      ensures Wanted(u, handling) ==> forall first: nat, r :: ContentEnds(u, handling, first, r) && first < Full() ==> !r.Ok?
    {}

    lemma NextPart(parts: seq<Part>, done: seq<Part>, w: seq<byte>, handling: seq<byte> -> Handling)
      requires SplitParts(w, boundary).Some? && parts == done + SplitParts(w, boundary).value
      ensures var cut := FirstPart(w, boundary);
              && cut.Some?
              && (cut.value.end ==> parts == done + [cut.value.part])
              && (!cut.value.end ==> SplitParts(cut.value.rest, boundary).Some?
                                     && parts == done + [cut.value.part] + SplitParts(cut.value.rest, boundary).value)
              && |done| < |parts| && parts[|done|] == cut.value.part
    {
      var cut := FirstPart(w, boundary).value;
      var split := SplitParts(w, boundary).value;
      assert split == [cut.part] + if cut.end then [] else SplitParts(cut.rest, boundary).value;
      Regroup(done, [cut.part], if cut.end then [] else SplitParts(cut.rest, boundary).value);
    }

    lemma Regroup(a: seq<Part>, b: seq<Part>, c: seq<Part>)
      ensures a + (b + c) == a + b + c && (c == [] ==> a + (b + c) == a + b)
    {}
  }

  lemma HandledSnoc(got: seq<Part>, done: seq<Part>, g: Part, p: Part, handling: seq<byte> -> Handling)
    requires got != [] && got[|got| - 1] == g && Handled(got[..|got| - 1], done, handling) && g == Received(p, handling)
    ensures Handled(got, done + [p], handling)
  {}
}
