/** The transport the chat endpoint runs over: bytes, network end points and a
    stand-in for a TCP socket. Every result the operating system would decide
    (whether a bind or a connect succeeds, how many bytes one send takes, what
    one receive finds) is passed in as a parameter, so the socket itself holds
    only what the chat endpoint can observe of it. */
module Transport {

  type byte = b: int | 0 <= b < 256

  datatype Option<T> = None | Some(value: T)

  /** An IPv4 address (as a number) and a port. Two end points are equal when
      both parts are. */
  datatype EndPoint = EndPoint(address: nat, port: nat)

  /** 127.0.0.1 */
  const Loopback: nat := 0x7F00_0001

  datatype SocketError = Success | Failure(code: int)

  /** What the network does with one send call: how many bytes it takes and
      which error it reports. */
  datatype Transfer = Transfer(count: nat, error: SocketError)

  /** What one blocking receive finds: the bytes the peer has made available
      to it, or a socket exception. */
  datatype ReadResult = Available(bytes: seq<byte>) | ReadFailed

  function Min(a: nat, b: nat): nat { if a <= b then a else b }

  /** Number of bytes a send call asking to write `size` bytes hands to the
      transport: never more than it was asked for. */
  function Taken(t: Transfer, size: nat): (n: nat)
    ensures n <= size && n <= t.count
    ensures n < size ==> n == t.count
  {
    Min(t.count, size)
  }

  /** The bytes a blocking receive of at most `size` bytes returns, or None
      when the receive throws. */
  function Received(read: ReadResult, size: nat): (r: Option<seq<byte>>)
    ensures r.None? <==> read.ReadFailed?
    ensures r.Some? ==> r.value <= read.bytes && |r.value| <= size
    ensures r.Some? && |r.value| < size ==> r.value == read.bytes
  {
    match read
    case ReadFailed => None
    case Available(bytes) => Some(bytes[..Min(size, |bytes|)])
  }

  /** A stream socket as far as the chat endpoint sees it. `Output` is every
      byte handed to the transport so far, in order. */
  class Socket {
    var LocalEndPoint: Option<EndPoint>
    var RemoteEndPoint: Option<EndPoint>
    var Output: seq<byte>
    var Disposed: bool

    /** A new, unbound and unconnected socket. */
    constructor ()
      ensures LocalEndPoint == None && RemoteEndPoint == None
      ensures Output == [] && !Disposed
    {
      LocalEndPoint, RemoteEndPoint := None, None;
      Output, Disposed := [], false;
    }

    /** The socket a listener hands out for an incoming connection. */
    constructor FromAccept(remote: EndPoint)
      ensures LocalEndPoint == None && RemoteEndPoint == Some(remote)
      ensures Output == [] && !Disposed
    {
      LocalEndPoint, RemoteEndPoint := None, Some(remote);
      Output, Disposed := [], false;
    }

    /** Bind to `ep` and start listening; `succeeds` is the system's answer. */
    method Bind(ep: EndPoint, succeeds: bool) returns (ok: bool)
      modifies this`LocalEndPoint
      ensures ok == succeeds
      ensures LocalEndPoint == if ok then Some(ep) else old(LocalEndPoint)
    {
      ok := succeeds;
      if ok {
        LocalEndPoint := Some(ep);
      }
    }

    /** Connect to `ep`; `reachable` is the system's answer. */
    method Connect(ep: EndPoint, reachable: bool) returns (ok: bool)
      modifies this`RemoteEndPoint
      ensures ok == reachable
      ensures RemoteEndPoint == if ok then Some(ep) else old(RemoteEndPoint)
    {
      ok := reachable;
      if ok {
        RemoteEndPoint := Some(ep);
      }
    }

    /** Send `buffer[offset..offset + size]`; the transport takes the first
        `n` of those bytes and reports `error`. */
    method Send(buffer: seq<byte>, offset: nat, size: nat, t: Transfer) returns (n: nat, error: SocketError)
      requires offset + size <= |buffer|
      modifies this`Output
      ensures n == Taken(t, size) && error == t.error
      ensures Output == old(Output) + buffer[offset..offset + n]
    {
      n, error := Taken(t, size), t.error;
      Output := Output + buffer[offset..offset + n];
    }

    /** Close the socket and release it. */
    method Dispose()
      modifies this`Disposed
      ensures Disposed
    {
      Disposed := true;
    }
  }
}
