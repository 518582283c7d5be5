/**
 * The read side of a connection: a growing buffer with lazy erasure in front of a non-blocking socket.
 *
 * The socket is an environment. `incoming` holds the bytes the peer has sent or will send; every receive
 * hands over an arbitrary non-empty part of them, so what is proved here holds for every fragmentation.
 */
module ConnectionIO {
  import opened Bytes

  datatype ReadResult = DATA | CLOSED | WOULD_BLOCK | BUFFER_LIMIT_EXCEEDED | ERROR | TIMED_OUT
  datatype ReceiveStatus = Received | Blocked | Closed | Failed

  function Min(a: nat, b: nat): nat { if a < b then a else b }

  class ConnectionIO {
    var readBuffer: seq<byte>
    var readOffset: nat
    /** Environment: bytes the peer has yet to be read from. */
    var incoming: seq<byte>
    /** Environment: how many more wake-ups may find nothing to read. */
    var spurious: nat
    /** Environment: a reliable peer neither closes nor fails, and is only ever late once everything arrived. */
    const reliable: bool

    ghost predicate Valid() reads this { readOffset <= |readBuffer| }

    function Buffered(): seq<byte>
      reads this
      requires Valid()
    { readBuffer[readOffset..] }

    /** Every byte not yet consumed by a parser, buffered or not. */
    ghost function Unread(): seq<byte>
      reads this
      requires Valid()
    { Buffered() + incoming }

    constructor (incoming: seq<byte>, spurious: nat, reliable: bool)
      ensures Valid() && Buffered() == [] && Unread() == incoming
      ensures this.incoming == incoming && this.spurious == spurious && this.reliable == reliable
    {
      readBuffer, readOffset := [], 0;
      this.incoming, this.spurious, this.reliable := incoming, spurious, reliable;
    }

    /**
     * `stream_->receive`: any non-empty part of what is left, or nothing for any reason the environment has.
     * `woken` marks the first call after the socket was reported readable: that one blocks only if the
     * report was spurious.
     */
    method Receive(space: nat, woken: bool) returns (status: ReceiveStatus, data: seq<byte>)
      requires space > 0
      requires woken ==> !reliable || incoming != [] || spurious > 0
      modifies `incoming, `spurious
      ensures status.Received? ==> 0 < |data| <= space && data + incoming == old(incoming) && spurious == old(spurious)
      ensures !status.Received? ==> data == [] && incoming == old(incoming)
      ensures status.Closed? || status.Failed? ==> !reliable && spurious == old(spurious)
      ensures status.Blocked? ==> spurious == old(spurious) - (if woken then 1 else 0)
    {
      data := [];
      var oracle: nat := *;
      if !reliable && oracle == 0 {
        status := Closed;
      } else if !reliable && oracle == 1 {
        status := Failed;
      } else if !woken && (oracle == 2 || incoming == []) {
        status := Blocked;
      } else if woken && spurious > 0 && (oracle == 2 || incoming == []) {
        spurious := spurious - 1;
        status := Blocked;
      } else if incoming == [] {
        status := Closed;
      } else {
        var n: nat :| 0 < n <= space && n <= |incoming|;
        data, incoming := incoming[..n], incoming[n..];
        status := Received;
      }
    }

    /** Reads what the socket has, until `targetSize` bytes are buffered. */
    method DrainIntoReadBuffer(targetSize: nat, maxBufferSize: nat, woken: bool) returns (r: ReadResult)
      requires Valid()
      requires woken ==> !reliable || incoming != [] || spurious > 0
      requires woken ==> |Buffered()| < targetSize && |Buffered()| < maxBufferSize
      modifies this
      ensures Valid() && spurious <= old(spurious)
      ensures !r.CLOSED? && !r.ERROR? ==> Unread() == old(Unread()) && old(Buffered()) <= Buffered()
      ensures r.CLOSED? || r.ERROR? ==> !reliable
      ensures !r.TIMED_OUT?
      ensures r.DATA? ==> (|Buffered()| > |old(Buffered())| || targetSize <= |old(Buffered())|) && |Buffered()| < maxBufferSize
      ensures r.DATA? && |old(Buffered())| <= targetSize ==> |Buffered()| <= targetSize
      ensures r.WOULD_BLOCK? ==> Buffered() == old(Buffered()) && incoming == old(incoming) && |Buffered()| < targetSize && |Buffered()| < maxBufferSize
      ensures r.WOULD_BLOCK? && woken ==> spurious < old(spurious)
      ensures r.BUFFER_LIMIT_EXCEEDED? ==> |Buffered()| >= maxBufferSize && (|Buffered()| <= targetSize || Buffered() == old(Buffered()))
    {
      var gotData := false;
      var first := woken;
      while true
        invariant Valid() && spurious == old(spurious)
        invariant Unread() == old(Unread()) && old(Buffered()) <= Buffered()
        invariant gotData ==> |Buffered()| > |old(Buffered())| && |Buffered()| <= targetSize && |Buffered()| <= maxBufferSize && !first
        invariant !gotData ==> Buffered() == old(Buffered()) && incoming == old(incoming) && first == woken
        decreases |incoming|
      {
        var currentSize := |Buffered()|;
        if currentSize >= maxBufferSize { return BUFFER_LIMIT_EXCEEDED; }
        if currentSize >= targetSize { return DATA; }

        var spaceToAllow := Min(maxBufferSize - currentSize, targetSize - currentSize);
        var status, data := Receive(spaceToAllow, first);
        first := false;
        match status {
          case Received =>
            ghost var before := Buffered();
            readBuffer := readBuffer + data;
            assert Buffered() == before + data;
            gotData := true;
          case Blocked =>
            return if gotData then DATA else WOULD_BLOCK;
          case Closed =>
            // The enlarged buffer is not shrunk back on this path.
            readBuffer := readBuffer + seq(spaceToAllow, _ => 0);
            return CLOSED;
          case Failed =>
            readBuffer := readBuffer + seq(spaceToAllow, _ => 0);
            return ERROR;
        }
      }
    }

    /** `co_await io.read(size, maxBufferSize, deadline)`: try, suspend until readable or timed out, try again. */
    method Read(size: nat, maxBufferSize: nat) returns (r: ReadResult)
      requires Valid() && size > 0
      modifies this
      ensures Valid() && spurious <= old(spurious)
      ensures !r.CLOSED? && !r.ERROR? ==> Unread() == old(Unread()) && old(Buffered()) <= Buffered()
      ensures r.CLOSED? || r.ERROR? ==> !reliable
      ensures r.TIMED_OUT? ==> Buffered() == old(Buffered()) && (!reliable || incoming == [])
      ensures r.DATA? ==> |old(Buffered())| < |Buffered()| <= |old(Buffered())| + size && |Buffered()| < maxBufferSize
      ensures r.WOULD_BLOCK? ==> Buffered() == old(Buffered()) && spurious < old(spurious)
      ensures r.BUFFER_LIMIT_EXCEEDED? ==> maxBufferSize <= |Buffered()| && |Buffered()| <= |old(Buffered())| + size
    {
      var target := |Buffered()| + size;
      r := DrainIntoReadBuffer(target, maxBufferSize, false);
      if r.WOULD_BLOCK? {
        var late := *;
        if (late && (!reliable || incoming == [])) || (reliable && incoming == [] && spurious == 0) {
          return TIMED_OUT;
        }
        r := DrainIntoReadBuffer(target, maxBufferSize, true);
      }
    }

    /** Lazy erasure: the consumed prefix is dropped only once it outgrows half of the buffer. */
    method EraseFromReadBuffer(n: nat)
      requires Valid() && n <= |Buffered()|
      modifies `readBuffer, `readOffset
      ensures Valid() && Buffered() == old(Buffered())[n..]
      ensures Unread() == old(Unread())[n..]
      ensures readOffset * 2 <= |readBuffer| + 1
    {
      ghost var before := Buffered();
      readOffset := readOffset + n;
      assert readBuffer[readOffset..] == before[n..];
      if readOffset > |readBuffer| / 2 {
        readBuffer := readBuffer[readOffset..];
        readOffset := 0;
      }
      assert Buffered() == before[n..];
    }
  }
}
