/** Two chat endpoints on one machine, driven step by step through the
    operations' contracts. The transport's answers are the frames and text
    the endpoints write, including the frame Bob's Connect sends, which
    Alice's accept callback reads. */
module Scenarios {
  import opened Transport
  import opened Handshake
  import opened Chat

  const Alice: Text := [97, 108, 105, 99, 101]
  const Bob: Text := [98, 111, 98]
  const Eve: Text := [101, 118, 101]
  const Hi: Text := [104, 105]

  /** A new context that has set up its listener on `port` and armed the
      accept loop. */
  method StartListening(nickname: Text, port: nat, handlesConnectionRequests: bool) returns (context: ChatContext)
    ensures fresh(context) && fresh(context.Listener) && context.Valid()
    ensures context.Nickname == nickname && context.HandlesConnectionRequests == handlesConnectionRequests
    ensures context.Listener != null && !context.Listener.Disposed
    ensures context.Listener.LocalEndPoint == Some(EndPoint(Loopback, port))
    ensures context.Status == Listening && context.PendingAccepts == 1
    ensures context.Client == null && context.ClientNickname == None
    ensures context.PendingReceives == multiset{} && context.Raised == []
  {
    context := new ChatContext(nickname, port, handlesConnectionRequests);
    var setup := context.SetupListener(true);
    var armed := context.Listen();
  }

  /** Alice listens on port 9001 and Bob connects to it: Alice reads Bob's
      frame and approves, Bob reads the reply Alice wrote. Both end up
      Connected, each knowing the other's nickname. */
  method Introduce() returns (alice: ChatContext, bob: ChatContext, incoming: Socket)
    ensures fresh(alice) && fresh(bob) && fresh(incoming) && fresh(bob.Client)
    ensures alice.Valid() && bob.Valid()
    ensures alice.Status == Connected && bob.Status == Connected
    ensures alice.ClientNickname == Some(Bob) && bob.ClientNickname == Some(Alice)
    ensures alice.Client == incoming && incoming in alice.PendingReceives && !incoming.Disposed
    ensures bob.Client != incoming
    ensures bob.Client != null && !bob.Client.Disposed && bob.Client.Output == HandshakeFrame(Bob)
  {
    alice := StartListening(Alice, 9001, true);
    bob := StartListening(Bob, 9002, false);
    incoming := AdmitBob(alice);
    var reply := incoming.Output;
    assert reply == HandshakeFrame(Alice);
    HandshakeRoundTrip(Alice, []);
    assert reply + [] == reply;
    var connected := bob.Connect(EndPoint(Loopback, 9001), true, Transfer(4, Success),
                                 Available(reply), Available(reply[1..]));
    assert connected == Established;
  }

  /** Alice's pending accept completes with Bob's connection: she reads the
      frame Bob's Connect writes, approves, and her reply goes out whole. */
  method AdmitBob(alice: ChatContext) returns (incoming: Socket)
    requires alice.Valid() && alice.Nickname == Alice && alice.HandlesConnectionRequests
    requires alice.Listener != null && !alice.Listener.Disposed
    requires alice.PendingAccepts > 0 && alice.Status == Listening
    modifies alice
    ensures fresh(incoming) && alice.Valid()
    ensures alice.Status == Connected && alice.ClientNickname == Some(Bob)
    ensures alice.Client == incoming && incoming in alice.PendingReceives
    ensures !incoming.Disposed && incoming.Output == HandshakeFrame(Alice)
  {
    var bobFrame := HandshakeFrame(Bob);
    HandshakeRoundTrip(Bob, []);
    assert bobFrame + [] == bobFrame;
    var outcome, accepted, rearm :=
      alice.AcceptCompleted(Some(EndPoint(Loopback, 50000)), Available(bobFrame), Available(bobFrame[1..]),
                            true, Transfer(6, Success));
    assert outcome == Accepted;
    incoming := accepted;
  }

  /** Then Bob says "hi": Alice's pending receive finds exactly those bytes
      and raises them as a message from Bob. */
  method Conversation() returns (alice: ChatContext, heard: ReceiveOutcome)
    ensures heard == Delivered(Hi)
    ensures |alice.Raised| > 0 && alice.Raised[|alice.Raised| - 1] == MessageReceived(Bob, Hi)
  {
    var bob, incoming;
    alice, bob, incoming := Introduce();
    var before := bob.Client.Output;
    var script := [Transfer(2, Success), Transfer(2, Success), Transfer(2, Success)];
    assert Progressing(script);
    var sent := bob.Send(Hi, script);
    assert bob.Client.Output == before + Hi;
    heard := alice.ReceiveCompleted(incoming, Available(bob.Client.Output[|before|..]));
  }

  /** Alice's handler turns Eve down: Alice stays Listening with no peer,
      Eve's socket is disposed and the accept loop is armed again. */
  method Rejection() returns (status: ContextStatus, peer: Option<Text>, eveClosed: bool, rearm: ListenReport)
    ensures status == Listening && peer == None && eveClosed && rearm == AcceptArmed
  {
    var alice := StartListening(Alice, 9001, true);
    var eveFrame := HandshakeFrame(Eve);
    HandshakeRoundTrip(Eve, []);
    assert eveFrame + [] == eveFrame;
    var outcome, incoming;
    outcome, incoming, rearm :=
      alice.AcceptCompleted(Some(EndPoint(Loopback, 50001)), Available(eveFrame), Available(eveFrame[1..]),
                            false, Transfer(6, Success));
    assert outcome == Rejected;
    status, peer, eveClosed := alice.Status, alice.ClientNickname, incoming.Disposed;
  }

  /** Connecting to one's own listening end point is refused and changes
      nothing. */
  method SelfConnection() returns (report: ConnectReport, status: ContextStatus, client: Socket?)
    ensures report == SelfConnect && status == Listening && client == null
  {
    var alice := StartListening(Alice, 9001, true);
    report := alice.Connect(EndPoint(Loopback, 9001), true, Transfer(6, Success), ReadFailed, ReadFailed);
    status, client := alice.Status, alice.Client;
  }
}
