/**
 * The multipart parser's reads of a body of declared length: what `Multipart.BodySource` stands for, and when the
 * connection's body stream is not one.
 */
module MultipartBody {
  import opened Wrappers
  import opened Bytes
  import opened ServerConfig
  import opened ConnectionIO
  import opened HttpConnection

  /** The bytes of the body still to come. */
  ghost function Rest(body: BodyStream): seq<byte>
    requires body.io.Valid() && body.remaining <= |body.io.Unread()|
    reads body, body.io
  {
    body.io.Unread()[..body.remaining]
  }

  /**
   * A read into what is free of a window of `validBytes` bytes. It takes bytes of the next request if and only if as many
   * bytes are buffered as are free and fewer are due, which takes a window with less than 1024 bytes free. Otherwise it
   * hands over the next bytes of the body, at least one unless a wake-up was spurious.
   */
  method ReadForParser(body: BodyStream, validBytes: nat) returns (data: seq<byte>, failure: Option<ReadResult>)
    requires body.io.Valid() && |body.io.Buffered()| <= READ_AHEAD && validBytes < MULTIPART_BUFFER_SIZE
    requires !body.exhausted && 0 < body.remaining <= |body.io.Unread()|
    modifies body, body.io
    ensures body.io.Valid() && body.io.spurious <= old(body.io.spurious)
    ensures failure.None? ==> |body.io.Buffered()| <= READ_AHEAD
    ensures failure.None? ==> data <= old(body.io.Unread()) && body.io.Unread() == old(body.io.Unread())[|data|..]
    ensures failure.None? ==>
              (|data| > old(body.remaining) <==> |old(body.io.Buffered())| >= MULTIPART_BUFFER_SIZE - validBytes > old(body.remaining))
    ensures failure.None? && |data| > old(body.remaining) ==>
              && MULTIPART_BUFFER_SIZE - validBytes <= READ_AHEAD
              && data[old(body.remaining)..] <= old(body.io.Unread())[old(body.remaining)..]
              && body.remaining == (old(body.remaining) - |data|) % SIZE_T
    ensures failure.None? && |data| <= old(body.remaining) ==>
              && |data| <= MULTIPART_BUFFER_SIZE - validBytes
              && body.remaining <= |body.io.Unread()| && data + Rest(body) == old(Rest(body))
              && (body.exhausted <==> data == [] || Rest(body) == [])
              && (data == [] ==> body.io.spurious < old(body.io.spurious))
  {
    ghost var u, due := body.io.Unread(), body.remaining;
    var buf := new byte[MULTIPART_BUFFER_SIZE - validBytes];
    var n;
    n, failure := body.Read(buf);
    if failure.Some? { return [], failure; }
    data := buf[..n];
    Taken(u, due, n);
    if n == 0 { assert body.CutShort(); }
  }

  lemma Taken(u: seq<byte>, due: nat, n: nat)
    requires n <= |u| && due <= |u|
    ensures n <= due ==> u[..n] + u[n..][..due - n] == u[..due]
    ensures n > due ==> u[..n][due..] == u[due..n]
  {}
}
