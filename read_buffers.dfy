/** The read buffer of the aio request reader (`aio/HttpRequest.java`): a `java.nio.ByteBuffer`
    of 128 octets, and what the constructor's first channel read leaves in it. */
module ReadBuffers {
  import opened Text

  /** The capacity `ByteBuffer.allocate(128)` gives the request's read buffer. */
  const READ_BUFFER_SIZE: nat := 128

  /** A heap `ByteBuffer`: its backing array, position and limit (the mark is not used). */
  datatype ByteBuffer = ByteBuffer(backing: seq<byte>, position: nat, limit: nat)

  predicate Valid(b: ByteBuffer)
  {
    b.position <= b.limit <= |b.backing|
  }

  /** The octets between the position and the limit: what `get` hands out next. */
  function Remaining(b: ByteBuffer): (r: seq<byte>)
    requires Valid(b)
    ensures |r| == b.limit - b.position
  {
    b.backing[b.position..b.limit]
  }

  /** `n` NUL octets, the contents of a freshly allocated array. */
  function Nuls(n: nat): (r: seq<byte>)
    ensures |r| == n && forall k :: 0 <= k < n ==> r[k] == 0
  {
    seq(n, _ => 0)
  }

  /** `ByteBuffer.allocate(n)`: every octet of the buffer is there to be read, and all are NUL. */
  function Allocate(n: nat): (r: ByteBuffer)
    ensures Valid(r) && r.position == 0 && r.limit == n && Remaining(r) == Nuls(n)
  {
    ByteBuffer(Nuls(n), 0, n)
  }

  /** A channel read that receives `received`: the octets are stored at the position, which moves
      past them, and the limit and the rest of the array stay as they were. */
  function ChannelRead(b: ByteBuffer, received: seq<byte>): (r: ByteBuffer)
    requires Valid(b) && |received| <= b.limit - b.position
    ensures Valid(r) && r.limit == b.limit && r.position == b.position + |received|
    ensures |r.backing| == |b.backing| && r.backing[b.position..r.position] == received
    ensures r.backing[..b.position] == b.backing[..b.position] && r.backing[r.position..] == b.backing[r.position..]
  {
    ByteBuffer(b.backing[..b.position] + received + b.backing[b.position + |received|..],
               b.position + |received|, b.limit)
  }

  /** `rewind()`: the position goes back to 0 and the limit stays. */
  function Rewind(b: ByteBuffer): (r: ByteBuffer)
    requires Valid(b)
    ensures Valid(r) && r.position == 0 && r.limit == b.limit && r.backing == b.backing
  {
    b.(position := 0)
  }

  /** `flip()`: the limit becomes the position, and the position goes back to 0. */
  function Flip(b: ByteBuffer): (r: ByteBuffer)
    requires Valid(b)
    ensures Valid(r) && r.position == 0 && r.limit == b.position && r.backing == b.backing
  {
    b.(position := 0, limit := b.position)
  }

  /** The read buffer after the constructor's first read, as written: `read` and then `rewind`. */
  function FirstWindowAsWritten(received: seq<byte>): (r: ByteBuffer)
    requires |received| <= READ_BUFFER_SIZE
    ensures Valid(r)
  {
    Rewind(ChannelRead(Allocate(READ_BUFFER_SIZE), received))
  }

  /** The read buffer after the first read with `flip` in place of `rewind`, as `read()` itself
      does when it refills the buffer (`wrap(array, 0, read)`). */
  function FirstWindow(received: seq<byte>): (r: ByteBuffer)
    requires |received| <= READ_BUFFER_SIZE
    ensures Valid(r)
  {
    Flip(ChannelRead(Allocate(READ_BUFFER_SIZE), received))
  }

  /** As written, a first read shorter than the buffer leaves the octets never received to be
      read as NULs after the ones that were. */
  lemma RewindPadsWithNuls(received: seq<byte>)
    requires |received| <= READ_BUFFER_SIZE
    ensures Remaining(FirstWindowAsWritten(received)) == received + Nuls(READ_BUFFER_SIZE - |received|)
  {
    var b := ChannelRead(Allocate(READ_BUFFER_SIZE), received);
    assert b.backing == b.backing[0..|received|] + b.backing[|received|..];
    assert b.backing[|received|..] == Allocate(READ_BUFFER_SIZE).backing[|received|..];
  }

  /** With `flip`, the buffer offers exactly the octets received. */
  lemma FlipOffersReceived(received: seq<byte>)
    requires |received| <= READ_BUFFER_SIZE
    ensures Remaining(FirstWindow(received)) == received
  {
  }

  /** A message whose head and body arrive together in one short read: as written, the octets
      after the head are the body followed by NULs up to the capacity; with `flip`, the body. */
  lemma AfterHead(head: seq<byte>, body: seq<byte>)
    requires |head| + |body| <= READ_BUFFER_SIZE
    ensures Remaining(FirstWindowAsWritten(head + body))[|head|..] ==
      body + Nuls(READ_BUFFER_SIZE - |head| - |body|)
    ensures Remaining(FirstWindow(head + body))[|head|..] == body
  {
    RewindPadsWithNuls(head + body);
    assert (head + body + Nuls(READ_BUFFER_SIZE - |head| - |body|))[|head|..] ==
      body + Nuls(READ_BUFFER_SIZE - |head| - |body|);
    FlipOffersReceived(head + body);
    assert (head + body)[|head|..] == body;
  }

  /** "POST / HTTP/1.1", a content length of 3 and the body "abc", 41 octets in one read: the
      38-octet head is followed by 90 octets, "abc" and 87 NULs, where 3 were sent. */
  lemma ShortPostPadded()
    ensures var head := EncodeAscii("POST / HTTP/1.1\r\nContent-Length: 3\r\n\r\n");
      var body := EncodeAscii("abc");
      |head| == 38 && |head + body| == 41 &&
      Remaining(FirstWindowAsWritten(head + body))[38..] == body + Nuls(87) &&
      Remaining(FirstWindow(head + body))[38..] == body
  {
    var head := EncodeAscii("POST / HTTP/1.1\r\nContent-Length: 3\r\n\r\n");
    var body := EncodeAscii("abc");
    AfterHead(head, body);
  }
}
