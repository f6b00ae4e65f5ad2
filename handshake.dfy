/** The nickname exchange run once on every new connection: one length byte
    followed by the nickname's UTF-8 bytes. Nicknames and messages are kept
    as their UTF-8 bytes throughout the model. */
module Handshake {
  import opened Transport

  /** A string, as the bytes of its UTF-8 encoding. */
  type Text = seq<byte>

  /** The longest nickname whose length fits the length byte. */
  const MaxNicknameLength: nat := 255

  /** The unchecked `(byte)` cast of a length: it wraps modulo 256. */
  function LengthByte(n: nat): byte
  {
    n % 256
  }

  /** The bytes SendHandshake writes for `nickname`. */
  function HandshakeFrame(nickname: Text): seq<byte>
  {
    [LengthByte(|nickname|)] + nickname
  }

  /** Whether one send call hands the whole frame of `nickname` to the
      transport without an error. */
  predicate SendSucceeds(t: Transfer, nickname: Text)
  {
    t.error == Success && t.count >= |nickname| + 1
  }

  datatype HandshakeError = LengthNotReceived | NicknameNotReceived

  datatype Result<T> = Ok(value: T) | Err(error: HandshakeError)

  /** Write the frame of `nickname` with a single send call. The call fails
      (an exception in the C# code) unless the transport takes every byte
      of the frame; whatever it did take stays written. */
  method SendHandshake(client: Socket, nickname: Text, t: Transfer) returns (ok: bool)
    modifies client`Output
    ensures ok <==> SendSucceeds(t, nickname)
    ensures client.Output == old(client.Output) + HandshakeFrame(nickname)[..Taken(t, |nickname| + 1)]
    ensures ok ==> client.Output == old(client.Output) + HandshakeFrame(nickname)
  {
    var buffer := HandshakeFrame(nickname);
    var n, error := client.Send(buffer, 0, |buffer|, t);
    ok := error == Success && n == |buffer|;
  }

  /** Read exactly one byte, the length L, then exactly L bytes, the
      nickname. `lengthRead` and `nameRead` are what the two blocking
      receives find; a receive that throws or returns fewer bytes than asked
      for fails the handshake. */
  function ReceiveHandshake(lengthRead: ReadResult, nameRead: ReadResult): (r: Result<Text>)
    ensures r.Ok? <==>
      lengthRead.Available? && |lengthRead.bytes| >= 1 &&
      nameRead.Available? && |nameRead.bytes| >= lengthRead.bytes[0]
    ensures r.Ok? ==>
      lengthRead.Available? && nameRead.Available? && |r.value| <= |nameRead.bytes| &&
      HandshakeFrame(r.value) == lengthRead.bytes[..1] + nameRead.bytes[..|r.value|] &&
      r.value == nameRead.bytes[..lengthRead.bytes[0]]
    ensures r == Err(LengthNotReceived) <==> !(lengthRead.Available? && |lengthRead.bytes| >= 1)
  {
    match Received(lengthRead, 1)
    case None => Err(LengthNotReceived)
    case Some(prefix) =>
      if |prefix| != 1 then Err(LengthNotReceived)
      else
        var length := prefix[0];
        match Received(nameRead, length)
        case None => Err(NicknameNotReceived)
        case Some(name) =>
          if |name| != length then Err(NicknameNotReceived) else Ok(name)
  }

  /** A nickname of at most 255 bytes survives the exchange, whatever the
      peer sends after its frame: the first receive finds the whole stream,
      the second what follows the length byte. */
  lemma HandshakeRoundTrip(nickname: Text, rest: seq<byte>)
    requires |nickname| <= MaxNicknameLength
    ensures var stream := HandshakeFrame(nickname) + rest;
            ReceiveHandshake(Available(stream), Available(stream[1..])) == Ok(nickname)
  {
    var stream := HandshakeFrame(nickname) + rest;
    assert stream[0] == |nickname|;
    assert stream[1..][..|nickname|] == nickname;
  }

  /** A longer nickname wraps: the length byte announces |nickname| % 256
      bytes, so the receiver takes that prefix as the nickname and leaves the
      rest of it in the stream, where it is read as chat text. */
  lemma LongNicknameWraps(nickname: Text, rest: seq<byte>)
    requires |nickname| > MaxNicknameLength
    ensures var stream := HandshakeFrame(nickname) + rest;
            ReceiveHandshake(Available(stream), Available(stream[1..])) == Ok(nickname[..|nickname| % 256])
    ensures var stream := HandshakeFrame(nickname) + rest;
            ReceiveHandshake(Available(stream), Available(stream[1..])) != Ok(nickname)
  {
    var stream := HandshakeFrame(nickname) + rest;
    var k := |nickname| % 256;
    assert stream[0] == k;
    assert stream[1..][..k] == nickname[..k];
    assert |nickname[..k]| != |nickname|;
  }

  /** TCP may deliver the nickname in pieces; the second receive is not
      retried, so a nickname that has only partly arrived fails the
      handshake even though the peer sent a well-formed frame. */
  lemma SplitNicknameFails(nickname: Text, arrived: nat)
    requires 0 < |nickname| <= MaxNicknameLength && arrived < |nickname|
    ensures var frame := HandshakeFrame(nickname);
            ReceiveHandshake(Available(frame[..1]), Available(frame[1..1 + arrived])) == Err(NicknameNotReceived)
  {
  }
}
