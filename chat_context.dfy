/** The chat endpoint's connection manager: one listening socket, at most one
    peer socket, the status, and the bodies of the accept and receive
    callbacks. The runtime's pending asynchronous operations are kept as
    ghost state; each completion is a method the environment calls. */
module Chat {
  import opened Transport
  import opened Handshake

  datatype ContextStatus = NotReady | Listening | Connected

  /** Size of the buffer one asynchronous receive reads into. */
  const ReceiveBufferSize: nat := 4096

  /** An event the context raises. */
  datatype Notification =
    | ConnectionRequested(nickname: Text, endPoint: EndPoint)
    | MessageReceived(nickname: Text, message: Text)
    | MessageSent(message: Text)

  /** What SetupListener did; the last two end in an exception. */
  datatype SetupReport = ListenerReady | AlreadySetup | BindFailed

  /** What Listen did. `ListenerClosed`: BeginAccept threw because the
      listener had been disposed. `NotBound`: BeginAccept threw because the
      listener never started listening (its bind failed). */
  datatype ListenReport = StillConnected | AcceptArmed | NoListenerToArm | ListenerClosed | NotBound

  /** What Connect did. `NoListener`: the self-connection test dereferenced a
      listener that was never set up and threw. `ListenerGone`: that test
      read the end point of a disposed listener and threw. */
  datatype ConnectReport =
    | AlreadyConnected | NoListener | ListenerGone | SelfConnect | ConnectFailed | HandshakeFailed | Established

  /** What Send did. `NoClient` and `ClientDisposed`: the first send call
      threw before anything was written. */
  datatype SendReport = NoClient | ClientDisposed | SendFailed(error: SocketError) | Sent

  datatype DisconnectReport = NotConnected | Disconnected

  /** Which path one completion of the accept callback took. */
  datatype AcceptOutcome =
    | ListenerDisposed | AcceptFailed | NoHandler | InboundHandshakeFailed | Rejected | ReplyFailed | Accepted
  {
    /** A connection was accepted from the listener. */
    predicate HasSocket() { !(ListenerDisposed? || AcceptFailed?) }
    /** The accepted socket was disposed. */
    predicate DisposedSocket() { NoHandler? || Rejected? }
    /** ConnectionRequested was raised. */
    predicate RaisedRequest() { Rejected? || ReplyFailed? || Accepted? }
    /** Client, ClientNickname and ClientEndPoint now describe the new peer. */
    predicate StoredPeer() { ReplyFailed? || Accepted? }
  }

  /** What one completion of the receive callback did. */
  datatype ReceiveOutcome = PeerGone | Delivered(message: Text)

  /** Whether every send call in `script` that reports success takes at least
      one byte: a transport that neither fails nor makes progress would keep
      the send loop spinning forever. */
  predicate Progressing(script: seq<Transfer>)
  {
    forall i | 0 <= i < |script| :: script[i].error == Success ==> script[i].count > 0
  }

  /** The send loop of Send on a buffer of `size` bytes of which `sent` are
      already written, making its next call with answer `script[k]`: one call
      per answer, until every byte is written or a call reports an error.
      Yields the final total and the last error. */
  function Transmit(size: nat, sent: nat, script: seq<Transfer>, k: nat): (r: (nat, SocketError))
    requires sent <= size && size - sent < |script| - k && Progressing(script)
    ensures sent <= r.0 <= size
    ensures r.1 == Success ==> r.0 == size
    decreases |script| - k
  {
    var n := Taken(script[k], size - sent);
    if sent + n < size && script[k].error == Success then Transmit(size, sent + n, script, k + 1)
    else (sent + n, script[k].error)
  }

  /** On a transport whose calls all succeed the whole buffer goes out. */
  lemma {:induction false} TransmitOnHealthyLink(size: nat, sent: nat, script: seq<Transfer>, k: nat)
    requires sent <= size && size - sent < |script| - k && Progressing(script)
    requires forall i | k <= i < |script| :: script[i].error == Success
    ensures Transmit(size, sent, script, k) == (size, Success)
    decreases |script| - k
  {
    var n := Taken(script[k], size - sent);
    if sent + n < size {
      TransmitOnHealthyLink(size, sent + n, script, k + 1);
    }
  }

  /** The loop ends at the first failing call: unless the whole buffer was
      already written, that call's error is the final one. */
  lemma {:induction false} TransmitStopsAtFirstError(size: nat, sent: nat, script: seq<Transfer>, k: nat, j: nat)
    requires sent <= size && size - sent < |script| - k && Progressing(script)
    requires k <= j < |script| && script[j].error != Success
    requires forall i | k <= i < j :: script[i].error == Success
    ensures Transmit(size, sent, script, k).0 == size || Transmit(size, sent, script, k).1 == script[j].error
    decreases |script| - k
  {
    var n := Taken(script[k], size - sent);
    if sent + n < size && script[k].error == Success {
      assert k < j;
      TransmitStopsAtFirstError(size, sent + n, script, k + 1, j);
    }
  }

  /** Only the answers up to the first failing call are ever used: two
      transports that agree on them make the loop end the same way. */
  lemma {:induction false} TransmitIgnoresLaterAnswers(size: nat, sent: nat, script: seq<Transfer>,
                                                        other: seq<Transfer>, k: nat, j: nat)
    requires sent <= size && size - sent < |script| - k && Progressing(script)
    requires k <= j < |script| && script[j].error != Success
    requires |other| == |script| && Progressing(other) && other[..j + 1] == script[..j + 1]
    ensures Transmit(size, sent, other, k) == Transmit(size, sent, script, k)
    decreases |script| - k
  {
    assert other[k] == other[..j + 1][k];
    var n := Taken(script[k], size - sent);
    if sent + n < size && script[k].error == Success {
      assert k < j;
      TransmitIgnoresLaterAnswers(size, sent + n, script, other, k + 1, j);
    }
  }

  /** The running total after the calls answered by `script[k..j]`, each
      taking what its answer allows of what is still unsent, with no
      stopping rule: the reference the loop's exit point is measured
      against. */
  function Written(size: nat, sent: nat, script: seq<Transfer>, k: nat, j: nat): (w: nat)
    requires sent <= size && k <= j <= |script|
    ensures sent <= w <= size
    ensures k < j && script[k].error == Success && script[k].count >= size - sent ==> w == size
    decreases j - k
  {
    if k == j then sent else Written(size, sent + Taken(script[k], size - sent), script, k + 1, j)
  }

  /** The loop ends exactly at call `j` when every earlier call succeeded
      without finishing the buffer and call `j` either failed or wrote the
      last byte: the result is the running total after call `j` and that
      call's error. */
  lemma {:induction false} TransmitEndsAtCall(size: nat, sent: nat, script: seq<Transfer>, k: nat, j: nat)
    requires sent <= size && size - sent < |script| - k && Progressing(script)
    requires k <= j < |script|
    requires forall i | k <= i < j :: script[i].error == Success
    requires forall i | k < i <= j :: Written(size, sent, script, k, i) < size
    requires script[j].error != Success || Written(size, sent, script, k, j + 1) == size
    ensures Transmit(size, sent, script, k) == (Written(size, sent, script, k, j + 1), script[j].error)
    decreases j - k
  {
    var n := Taken(script[k], size - sent);
    if k < j {
      assert Written(size, sent, script, k, k + 1) == sent + n;
      var sent', k' := sent + n, k + 1;
      forall i | k' < i <= j
        ensures Written(size, sent', script, k', i) < size
      {
        assert Written(size, sent, script, k, i) == Written(size, sent', script, k', i);
      }
      TransmitEndsAtCall(size, sent', script, k', j);
    } else {
      assert Written(size, sent, script, k, k + 1) == sent + n;
    }
  }

  /** The send loop: call send on `client` with the unsent rest of
      `message` until everything is written or a call reports an error;
      `script` holds the transport's answers to the successive calls. */
  method WriteAll(client: Socket, message: Text, script: seq<Transfer>) returns (sent: nat, error: SocketError)
    requires |message| < |script| && Progressing(script)
    modifies client`Output
    ensures (sent, error) == Transmit(|message|, 0, script, 0)
    ensures client.Output == old(client.Output) + message[..sent]
  {
    var n;
    n, error := client.Send(message, 0, |message|, script[0]);
    var calls: nat;
    sent, calls := n, 1;
    while sent < |message| && error == Success
      invariant sent <= |message| && calls <= |script|
      invariant sent < |message| && error == Success ==> |message| - sent < |script| - calls
      invariant Transmit(|message|, 0, script, 0) ==
        if sent < |message| && error == Success then Transmit(|message|, sent, script, calls) else (sent, error)
      invariant client.Output == old(client.Output) + message[..sent]
      decreases |script| - calls
    {
      n, error := client.Send(message, sent, |message| - sent, script[calls]);
      assert message[..sent + n] == message[..sent] + message[sent..sent + n];
      sent, calls := sent + n, calls + 1;
    }
  }

  class ChatContext {
    /** The local nickname and listen port (the options the context is made with). */
    const Nickname: Text
    const ListenPort: nat

    var Client: Socket?
    var Listener: Socket?
    var ClientNickname: Option<Text>
    var ClientEndPoint: Option<EndPoint>
    var Status: ContextStatus

    /** Whether the ConnectionRequested event has a subscriber. */
    const HandlesConnectionRequests: bool

    /** Accepts armed and not yet completed. */
    ghost var PendingAccepts: nat
    /** Receives armed and not yet completed, by the socket each was armed on. */
    ghost var PendingReceives: multiset<Socket>
    /** Every event raised so far, in order. */
    ghost var Raised: seq<Notification>

    /** What every operation keeps. It does NOT include "Client != null
        exactly when Connected": Disconnect leaves Status alone, and an
        accepted client whose reply handshake fails stays in Client. */
    ghost predicate Valid()
      reads this
    {
      (PendingAccepts > 0 ==> Listener != null) &&
      (Status == Connected ==> |PendingReceives| > 0) &&
      (|PendingReceives| > 0 ==> ClientNickname.Some?) &&
      (Client != null ==> Client != Listener)
    }

    constructor (nickname: Text, listenPort: nat, handlesConnectionRequests: bool)
      ensures Valid()
      ensures Nickname == nickname && ListenPort == listenPort
      ensures HandlesConnectionRequests == handlesConnectionRequests
      ensures Client == null && Listener == null
      ensures ClientNickname == None && ClientEndPoint == None && Status == NotReady
      ensures PendingAccepts == 0 && PendingReceives == multiset{} && Raised == []
    {
      Nickname, ListenPort := nickname, listenPort;
      HandlesConnectionRequests := handlesConnectionRequests;
      Client, Listener := null, null;
      ClientNickname, ClientEndPoint, Status := None, None, NotReady;
      PendingAccepts, PendingReceives, Raised := 0, multiset{}, [];
    }

    /** Create the listening socket and bind it to the loopback address on
        ListenPort. A second call fails. A failed bind throws after the new
        socket is already stored. The status is left alone. */
    method SetupListener(bindSucceeds: bool) returns (report: SetupReport)
      requires Valid()
      modifies this
      ensures Valid()
      ensures old(Listener) != null ==> report == AlreadySetup && unchanged(this)
      ensures old(Listener) == null ==>
        fresh(Listener) && !Listener.Disposed && Listener.Output == [] &&
        Listener.LocalEndPoint == (if bindSucceeds then Some(EndPoint(Loopback, ListenPort)) else None) &&
        report == (if bindSucceeds then ListenerReady else BindFailed)
      ensures old(Listener) == null ==>
        Status == old(Status) && Client == old(Client) && ClientNickname == old(ClientNickname) &&
        ClientEndPoint == old(ClientEndPoint) && PendingAccepts == old(PendingAccepts) &&
        PendingReceives == old(PendingReceives) && Raised == old(Raised)
    {
      if Listener != null {
        return AlreadySetup;
      }
      var listener := new Socket();
      Listener := listener;
      var ok := listener.Bind(EndPoint(Loopback, ListenPort), bindSucceeds);
      report := if ok then ListenerReady else BindFailed;
    }

    /** Record that `event` was raised. */
    method Raise(event: Notification)
      modifies this`Raised
      ensures Raised == old(Raised) + [event]
    {
      Raised := Raised + [event];
    }

    /** Arm a receive on the current client, if there is one. */
    method Receive()
      requires Client != null ==> ClientNickname.Some?
      modifies this`PendingReceives
      ensures PendingReceives == old(PendingReceives) + (if Client != null then multiset{Client} else multiset{})
    {
      if Client != null {
        PendingReceives := PendingReceives + multiset{Client};
      }
    }

    /** Write `message` to the client, calling send until every byte is
        written or a call reports an error; `script` holds the transport's
        answers to the successive calls. MessageSent is raised only when the
        last call reported success. */
    method Send(message: Text, script: seq<Transfer>) returns (report: SendReport)
      requires Valid()
      requires |message| < |script| && Progressing(script)
      modifies this`Raised, Client
      ensures Valid()
      ensures old(Client) == null ==> report == NoClient && Raised == old(Raised)
      ensures old(Client) != null && old(Client.Disposed) ==>
        report == ClientDisposed && Raised == old(Raised) && Client.Output == old(Client.Output)
      ensures old(Client) != null && !old(Client.Disposed) ==>
        var (sent, error) := Transmit(|message|, 0, script, 0);
        Client.Output == old(Client.Output) + message[..sent] &&
        (error == Success ==> report == Sent && Raised == old(Raised) + [MessageSent(message)]) &&
        (error != Success ==> report == SendFailed(error) && Raised == old(Raised))
      ensures Client != null ==>
        Client.LocalEndPoint == old(Client.LocalEndPoint) &&
        Client.RemoteEndPoint == old(Client.RemoteEndPoint) && Client.Disposed == old(Client.Disposed)
    {
      var client := Client;
      if client == null {
        return NoClient;
      }
      if client.Disposed {
        return ClientDisposed;
      }
      var sent, error := WriteAll(client, message, script);
      if error != Success {
        report := SendFailed(error);
      } else {
        Raise(MessageSent(message));
        report := Sent;
      }
    }

    /** Connect to `ep` and exchange nicknames, sending first. Nothing
        happens while a client is set or when `ep` is the listener's own end
        point. A failed connect or handshake clears Client (the socket is not
        closed) and changes nothing else; Status becomes Connected only once
        both handshake steps succeed, and then a receive is armed. */
    method Connect(ep: EndPoint, reachable: bool, handshakeSend: Transfer,
                   lengthRead: ReadResult, nameRead: ReadResult) returns (report: ConnectReport)
      requires Valid()
      modifies this`Client, this`ClientNickname, this`Status, this`PendingReceives
      ensures Valid()
      ensures old(Client) != null ==> report == AlreadyConnected && unchanged(this)
      ensures old(Client) == null && old(Listener) == null ==> report == NoListener && unchanged(this)
      ensures old(Client) == null && old(Listener) != null && old(Listener.Disposed) ==>
        report == ListenerGone && unchanged(this)
      ensures (old(Client) == null && old(Listener) != null && !old(Listener.Disposed) &&
               old(Listener.LocalEndPoint) == Some(ep)) ==>
        report == SelfConnect && unchanged(this)
      ensures (old(Client) == null && old(Listener) != null && !old(Listener.Disposed) &&
               old(Listener.LocalEndPoint) != Some(ep)) ==>
        report == Established || report == ConnectFailed || report == HandshakeFailed
      ensures report == Established <==>
        old(Client) == null && old(Listener) != null && !old(Listener.Disposed) &&
        old(Listener.LocalEndPoint) != Some(ep) &&
        reachable && SendSucceeds(handshakeSend, Nickname) && ReceiveHandshake(lengthRead, nameRead).Ok?
      ensures report == Established ==>
        fresh(Client) && Client.RemoteEndPoint == Some(ep) && !Client.Disposed &&
        Client.Output == HandshakeFrame(Nickname) &&
        ClientNickname == Some(ReceiveHandshake(lengthRead, nameRead).value) && Status == Connected &&
        PendingReceives == old(PendingReceives) + multiset{Client}
      ensures report == ConnectFailed || report == HandshakeFailed ==>
        Client == null && ClientNickname == old(ClientNickname) && Status == old(Status) &&
        PendingReceives == old(PendingReceives)
      ensures ClientEndPoint == old(ClientEndPoint) && Listener == old(Listener)
      ensures PendingAccepts == old(PendingAccepts) && Raised == old(Raised)
    {
      if Client != null {
        return AlreadyConnected;
      }
      if Listener == null {
        return NoListener;
      }
      if Listener.Disposed {
        return ListenerGone;
      }
      if Listener.LocalEndPoint == Some(ep) {
        return SelfConnect;
      }
      report := Dial(ep, reachable, handshakeSend, lengthRead, nameRead);
    }

    /** The guarded part of Connect: a fresh socket is stored in Client
        before connecting, and cleared again if any step fails. */
    method Dial(ep: EndPoint, reachable: bool, handshakeSend: Transfer,
                lengthRead: ReadResult, nameRead: ReadResult) returns (report: ConnectReport)
      requires Valid() && Client == null && Listener != null
      modifies this`Client, this`ClientNickname, this`Status, this`PendingReceives
      ensures Valid()
      ensures report == Established <==>
        reachable && SendSucceeds(handshakeSend, Nickname) && ReceiveHandshake(lengthRead, nameRead).Ok?
      ensures report == Established ==>
        fresh(Client) && Client.RemoteEndPoint == Some(ep) && !Client.Disposed &&
        Client.Output == HandshakeFrame(Nickname) &&
        ClientNickname == Some(ReceiveHandshake(lengthRead, nameRead).value) && Status == Connected &&
        PendingReceives == old(PendingReceives) + multiset{Client}
      ensures report != Established ==>
        (report == ConnectFailed || report == HandshakeFailed) &&
        Client == null && ClientNickname == old(ClientNickname) && Status == old(Status) &&
        PendingReceives == old(PendingReceives)
    {
      var client := new Socket();
      Client := client;
      var ok := client.Connect(ep, reachable);
      if !ok {
        Client := null;
        return ConnectFailed;
      }
      ok := SendHandshake(client, Nickname, handshakeSend);
      if !ok {
        Client := null;
        return HandshakeFailed;
      }
      var name := ReceiveHandshake(lengthRead, nameRead);
      if name.Err? {
        Client := null;
        return HandshakeFailed;
      }
      ClientNickname := Some(name.value);
      Status := Connected;
      Receive();
      report := Established;
    }

    /** Body of the receive callback, run when a receive armed on `armed`
        completes. It ends the read on the CURRENT client: if that is not
        `armed` (cleared or replaced since), is disposed, or the read throws
        or returns no bytes, the client is dropped and the status becomes
        Listening. Otherwise the bytes read are raised as a message. A new
        receive is armed only while the status is Connected. */
    method ReceiveCompleted(armed: Socket, read: ReadResult) returns (outcome: ReceiveOutcome)
      requires Valid() && armed in PendingReceives
      modifies this`Client, this`Status, this`PendingReceives, this`Raised
      ensures Valid()
      ensures outcome.PeerGone? <==>
        old(Client) != armed || armed.Disposed || !(read.Available? && |read.bytes| > 0)
      ensures outcome.PeerGone? ==>
        Client == null && Status == Listening && Raised == old(Raised) &&
        PendingReceives == old(PendingReceives) - multiset{armed}
      ensures outcome.Delivered? ==>
        Received(read, ReceiveBufferSize) == Some(outcome.message) && |outcome.message| > 0 &&
        ClientNickname.Some? &&
        Client == old(Client) && Status == old(Status) &&
        Raised == old(Raised) + [MessageReceived(ClientNickname.value, outcome.message)]
      ensures outcome.Delivered? && Status == Connected ==> PendingReceives == old(PendingReceives)
      ensures outcome.Delivered? && Status != Connected ==> PendingReceives == old(PendingReceives) - multiset{armed}
      ensures ClientNickname == old(ClientNickname) && ClientEndPoint == old(ClientEndPoint)
      ensures Listener == old(Listener) && PendingAccepts == old(PendingAccepts)
    {
      outcome := EndReceive(armed, read);
      if Status == Connected {
        Receive();
      }
    }

    /** The try and catch part of the receive callback: consume the
        completed receive, then drop the peer or raise the message. */
    method EndReceive(armed: Socket, read: ReadResult) returns (outcome: ReceiveOutcome)
      requires Valid() && armed in PendingReceives
      modifies this`Client, this`Status, this`PendingReceives, this`Raised
      ensures PendingReceives == old(PendingReceives) - multiset{armed}
      ensures ClientNickname.Some?
      ensures Client != null ==> Client != Listener
      ensures outcome.PeerGone? <==>
        old(Client) != armed || armed.Disposed || !(read.Available? && |read.bytes| > 0)
      ensures outcome.PeerGone? ==> Client == null && Status == Listening && Raised == old(Raised)
      ensures outcome.Delivered? ==>
        Received(read, ReceiveBufferSize) == Some(outcome.message) && |outcome.message| > 0 &&
        Client == armed && Status == old(Status) &&
        Raised == old(Raised) + [MessageReceived(ClientNickname.value, outcome.message)]
      ensures ClientNickname == old(ClientNickname) && ClientEndPoint == old(ClientEndPoint)
      ensures Listener == old(Listener) && PendingAccepts == old(PendingAccepts)
    {
      PendingReceives := PendingReceives - multiset{armed};
      var received := Received(read, ReceiveBufferSize);
      if Client != armed || armed.Disposed || received.None? || |received.value| == 0 {
        Client := null;
        Status := Listening;
        outcome := PeerGone;
      } else {
        Raise(MessageReceived(ClientNickname.value, received.value));
        outcome := Delivered(received.value);
      }
    }

    /** Close the client and forget the peer. The status is left as it is. */
    method Disconnect() returns (report: DisconnectReport)
      requires Valid()
      modifies this, Client
      ensures Valid()
      ensures old(Client) == null ==> report == NotConnected && unchanged(this)
      ensures old(Client) != null ==>
        report == Disconnected && old(Client).Disposed && old(Client).Output == old(Client.Output) &&
        old(Client).LocalEndPoint == old(Client.LocalEndPoint) &&
        old(Client).RemoteEndPoint == old(Client.RemoteEndPoint) &&
        Client == null && ClientNickname == Some([]) && ClientEndPoint == None
      ensures Status == old(Status) && Listener == old(Listener) && PendingAccepts == old(PendingAccepts)
      ensures PendingReceives == old(PendingReceives) && Raised == old(Raised)
    {
      var client := Client;
      if client == null {
        return NotConnected;
      }
      client.Dispose();
      Client := null;
      ClientNickname := Some([]);
      ClientEndPoint := None;
      report := Disconnected;
    }

    /** Start accepting: nothing while Connected; otherwise the status
        becomes Listening and an accept is armed on the listener, if there is
        one. Arming throws on a disposed listener and on one that never
        started listening. */
    method Listen() returns (report: ListenReport)
      requires Valid()
      modifies this`Status, this`PendingAccepts
      ensures Valid()
      ensures old(Status) == Connected ==> report == StillConnected && unchanged(this)
      ensures old(Status) != Connected ==>
        Status == Listening &&
        report == (if Listener == null then NoListenerToArm
                   else if Listener.Disposed then ListenerClosed
                   else if Listener.LocalEndPoint.None? then NotBound else AcceptArmed) &&
        PendingAccepts == old(PendingAccepts) + (if report == AcceptArmed then 1 else 0)
    {
      if Status == Connected {
        return StillConnected;
      }
      Status := Listening;
      if Listener == null {
        return NoListenerToArm;
      }
      if Listener.Disposed {
        return ListenerClosed;
      }
      if Listener.LocalEndPoint.None? {
        return NotBound;
      }
      PendingAccepts := PendingAccepts + 1;
      report := AcceptArmed;
    }

    /** The part of the accept callback that deals with a connection the
        listener did accept, from `remote`: without a ConnectionRequested
        subscriber the socket is disposed; otherwise the peer's handshake is
        read and, if it arrived, the request is answered. A failed inbound
        handshake leaves the socket open. */
    method AdmitPeer(remote: EndPoint, lengthRead: ReadResult, nameRead: ReadResult,
                     approve: bool, replySend: Transfer)
      returns (outcome: AcceptOutcome, incoming: Socket)
      requires Valid()
      modifies this`Client, this`ClientNickname, this`ClientEndPoint, this`Status, this`PendingReceives, this`Raised
      ensures Valid()
      ensures outcome.HasSocket()
      ensures outcome == NoHandler <==> !HandlesConnectionRequests
      ensures outcome == InboundHandshakeFailed <==>
        HandlesConnectionRequests && ReceiveHandshake(lengthRead, nameRead).Err?
      ensures outcome.RaisedRequest() ==>
        ReceiveHandshake(lengthRead, nameRead).Ok? &&
        (outcome == Rejected <==> !approve) &&
        (outcome == ReplyFailed <==> approve && !SendSucceeds(replySend, Nickname))
      ensures fresh(incoming) && incoming.RemoteEndPoint == Some(remote)
      ensures incoming.Disposed <==> outcome.DisposedSocket()
      ensures outcome.StoredPeer() ==>
        Client == incoming && ClientNickname == Some(ReceiveHandshake(lengthRead, nameRead).value) &&
        ClientEndPoint == Some(remote) &&
        incoming.Output == HandshakeFrame(Nickname)[..Taken(replySend, |Nickname| + 1)]
      ensures !outcome.StoredPeer() ==>
        Client == old(Client) && ClientNickname == old(ClientNickname) && ClientEndPoint == old(ClientEndPoint)
      ensures Status == if outcome == Accepted then Connected else old(Status)
      ensures PendingReceives ==
        old(PendingReceives) + (if outcome == Accepted then multiset{incoming} else multiset{})
      ensures Raised == old(Raised) +
        if outcome.RaisedRequest()
        then [ConnectionRequested(ReceiveHandshake(lengthRead, nameRead).value, remote)]
        else []
    {
      incoming := new Socket.FromAccept(remote);
      if !HandlesConnectionRequests {
        incoming.Dispose();
        return NoHandler, incoming;
      }
      var name := ReceiveHandshake(lengthRead, nameRead);
      if name.Err? {
        return InboundHandshakeFailed, incoming;
      }
      outcome := AnswerRequest(incoming, name.value, approve, replySend);
    }

    /** Raise ConnectionRequested for the peer on `incoming`, whose handshake
        gave `name`, and act on the answer: unless `approve` is set the
        socket is disposed. On approval Client, ClientNickname and
        ClientEndPoint are set BEFORE the reply handshake is sent; Status
        becomes Connected and a receive is armed only once the reply went
        out. */
    method AnswerRequest(incoming: Socket, name: Text, approve: bool, replySend: Transfer)
      returns (outcome: AcceptOutcome)
      requires Valid() && incoming != Listener && incoming.RemoteEndPoint.Some?
      modifies this`Client, this`ClientNickname, this`ClientEndPoint, this`Status, this`PendingReceives, this`Raised, incoming
      ensures Valid()
      ensures outcome.RaisedRequest()
      ensures outcome == Rejected <==> !approve
      ensures outcome == ReplyFailed <==> approve && !SendSucceeds(replySend, Nickname)
      ensures incoming.Disposed <==> old(incoming.Disposed) || outcome == Rejected
      ensures incoming.RemoteEndPoint == old(incoming.RemoteEndPoint) && incoming.LocalEndPoint == old(incoming.LocalEndPoint)
      ensures outcome.StoredPeer() ==>
        Client == incoming && ClientNickname == Some(name) && ClientEndPoint == incoming.RemoteEndPoint &&
        incoming.Output == old(incoming.Output) + HandshakeFrame(Nickname)[..Taken(replySend, |Nickname| + 1)]
      ensures !outcome.StoredPeer() ==>
        Client == old(Client) && ClientNickname == old(ClientNickname) && ClientEndPoint == old(ClientEndPoint)
      ensures Status == if outcome == Accepted then Connected else old(Status)
      ensures PendingReceives ==
        old(PendingReceives) + (if outcome == Accepted then multiset{incoming} else multiset{})
      ensures Raised == old(Raised) + [ConnectionRequested(name, incoming.RemoteEndPoint.value)]
    {
      Raise(ConnectionRequested(name, incoming.RemoteEndPoint.value));
      if !approve {
        incoming.Dispose();
        return Rejected;
      }
      var ok := TakePeer(incoming, name, replySend);
      outcome := if ok then Accepted else ReplyFailed;
    }

    /** The approved branch: store the peer, then send the reply handshake;
        only once it went out is the context Connected and reading. */
    method TakePeer(incoming: Socket, name: Text, replySend: Transfer) returns (ok: bool)
      requires Valid() && incoming != Listener
      modifies this`Client, this`ClientNickname, this`ClientEndPoint, this`Status, this`PendingReceives, incoming
      ensures Valid()
      ensures ok <==> SendSucceeds(replySend, Nickname)
      ensures Client == incoming && ClientNickname == Some(name) && ClientEndPoint == old(incoming.RemoteEndPoint)
      ensures incoming.Output == old(incoming.Output) + HandshakeFrame(Nickname)[..Taken(replySend, |Nickname| + 1)]
      ensures incoming.Disposed == old(incoming.Disposed) && incoming.RemoteEndPoint == old(incoming.RemoteEndPoint)
      ensures incoming.LocalEndPoint == old(incoming.LocalEndPoint)
      ensures Status == if ok then Connected else old(Status)
      ensures PendingReceives == old(PendingReceives) + (if ok then multiset{incoming} else multiset{})
    {
      Client := incoming;
      ClientNickname := Some(name);
      ClientEndPoint := incoming.RemoteEndPoint;
      ok := SendHandshake(incoming, Nickname, replySend);
      if ok {
        Status := Connected;
        Receive();
      }
    }

    /** Body of the accept callback. `accepted` is the end point of the
        connection the listener accepted (None: accepting threw),
        `lengthRead` and `nameRead` what the peer's handshake reads find,
        `approve` the Accept flag after the ConnectionRequested subscribers
        ran (false unless one set it), `replySend` the transport's answer to
        the reply handshake. A disposed listener sets Status to NotReady,
        but Listen runs at the end whatever happened, so that status is
        immediately replaced by Listening and re-arming throws. */
    method AcceptCompleted(accepted: Option<EndPoint>, lengthRead: ReadResult, nameRead: ReadResult,
                           approve: bool, replySend: Transfer)
      returns (outcome: AcceptOutcome, incoming: Socket?, rearm: ListenReport)
      requires Valid() && PendingAccepts > 0
      modifies this`Client, this`ClientNickname, this`ClientEndPoint, this`Status, this`PendingReceives, this`Raised, this`PendingAccepts
      ensures Listener != null
      ensures Valid()
      // which path was taken (the remaining ones are those of AdmitPeer)
      ensures outcome == ListenerDisposed <==> old(Listener.Disposed)
      ensures outcome == AcceptFailed <==> !old(Listener.Disposed) && accepted.None?
      ensures outcome.HasSocket() ==>
        (outcome == NoHandler <==> !HandlesConnectionRequests) &&
        (outcome == InboundHandshakeFailed <==>
          HandlesConnectionRequests && ReceiveHandshake(lengthRead, nameRead).Err?) &&
        (outcome == Rejected <==>
          HandlesConnectionRequests && ReceiveHandshake(lengthRead, nameRead).Ok? && !approve) &&
        (outcome == ReplyFailed <==>
          HandlesConnectionRequests && ReceiveHandshake(lengthRead, nameRead).Ok? && approve &&
          !SendSucceeds(replySend, Nickname))
      // the accepted socket: disposed when there is no handler or the request is rejected
      ensures incoming != null <==> outcome.HasSocket()
      ensures incoming != null ==>
        fresh(incoming) && incoming.RemoteEndPoint == accepted &&
        (incoming.Disposed <==> outcome.DisposedSocket())
      // the peer fields
      ensures outcome.StoredPeer() ==>
        incoming != null && Client == incoming &&
        ClientNickname == Some(ReceiveHandshake(lengthRead, nameRead).value) && ClientEndPoint == accepted &&
        incoming.Output == HandshakeFrame(Nickname)[..Taken(replySend, |Nickname| + 1)]
      ensures !outcome.StoredPeer() ==>
        Client == old(Client) && ClientNickname == old(ClientNickname) && ClientEndPoint == old(ClientEndPoint)
      // the status, after the closing Listen
      ensures Status ==
        if outcome == Accepted || (old(Status) == Connected && outcome != ListenerDisposed) then Connected
        else Listening
      ensures rearm ==
        if Status == Connected then StillConnected
        else if Listener.Disposed then ListenerClosed
        else if Listener.LocalEndPoint.None? then NotBound else AcceptArmed
      ensures PendingAccepts == old(PendingAccepts) - 1 + (if rearm == AcceptArmed then 1 else 0)
      ensures PendingReceives ==
        old(PendingReceives) + (if outcome == Accepted then multiset{incoming} else multiset{})
      ensures Raised == old(Raised) +
        if outcome.RaisedRequest()
        then [ConnectionRequested(ReceiveHandshake(lengthRead, nameRead).value, accepted.value)]
        else []
    {
      outcome, incoming := EndAccept(accepted, lengthRead, nameRead, approve, replySend);
      rearm := Listen();
    }

    /** The try and catch part of the accept callback: consume the completed
        accept, then admit the accepted peer. A disposed listener sets
        NotReady. */
    method EndAccept(accepted: Option<EndPoint>, lengthRead: ReadResult, nameRead: ReadResult,
                     approve: bool, replySend: Transfer)
      returns (outcome: AcceptOutcome, incoming: Socket?)
      requires Valid() && PendingAccepts > 0
      modifies this`Client, this`ClientNickname, this`ClientEndPoint, this`Status, this`PendingReceives, this`Raised, this`PendingAccepts
      ensures Listener != null
      ensures Valid()
      ensures PendingAccepts == old(PendingAccepts) - 1
      ensures outcome == ListenerDisposed <==> old(Listener.Disposed)
      ensures outcome == AcceptFailed <==> !old(Listener.Disposed) && accepted.None?
      ensures outcome.HasSocket() ==>
        (outcome == NoHandler <==> !HandlesConnectionRequests) &&
        (outcome == InboundHandshakeFailed <==>
          HandlesConnectionRequests && ReceiveHandshake(lengthRead, nameRead).Err?) &&
        (outcome == Rejected <==>
          HandlesConnectionRequests && ReceiveHandshake(lengthRead, nameRead).Ok? && !approve) &&
        (outcome == ReplyFailed <==>
          HandlesConnectionRequests && ReceiveHandshake(lengthRead, nameRead).Ok? && approve &&
          !SendSucceeds(replySend, Nickname))
      ensures incoming != null <==> outcome.HasSocket()
      ensures incoming != null ==>
        fresh(incoming) && incoming.RemoteEndPoint == accepted &&
        (incoming.Disposed <==> outcome.DisposedSocket())
      ensures outcome.StoredPeer() ==>
        incoming != null && Client == incoming &&
        ClientNickname == Some(ReceiveHandshake(lengthRead, nameRead).value) && ClientEndPoint == accepted &&
        incoming.Output == HandshakeFrame(Nickname)[..Taken(replySend, |Nickname| + 1)]
      ensures !outcome.StoredPeer() ==>
        Client == old(Client) && ClientNickname == old(ClientNickname) && ClientEndPoint == old(ClientEndPoint)
      ensures Status ==
        if outcome == ListenerDisposed then NotReady else if outcome == Accepted then Connected else old(Status)
      ensures PendingReceives ==
        old(PendingReceives) + (if outcome == Accepted then multiset{incoming} else multiset{})
      ensures Raised == old(Raised) +
        if outcome.RaisedRequest()
        then [ConnectionRequested(ReceiveHandshake(lengthRead, nameRead).value, accepted.value)]
        else []
    {
      PendingAccepts := PendingAccepts - 1;
      incoming := null;
      if Listener.Disposed {
        // ending the accept throws ObjectDisposedException
        Status := NotReady;
        outcome := ListenerDisposed;
      } else if accepted.None? {
        outcome := AcceptFailed;
      } else {
        var client;
        outcome, client := AdmitPeer(accepted.value, lengthRead, nameRead, approve, replySend);
        incoming := client;
      }
    }

    /** Release both sockets, where they exist. Nothing is cleared. */
    method Dispose()
      requires Valid()
      modifies Client, Listener
      ensures Client != null ==>
        Client.Disposed && Client.Output == old(Client.Output) &&
        Client.LocalEndPoint == old(Client.LocalEndPoint) && Client.RemoteEndPoint == old(Client.RemoteEndPoint)
      ensures Listener != null ==>
        Listener.Disposed && Listener.LocalEndPoint == old(Listener.LocalEndPoint) &&
        Listener.Output == old(Listener.Output) && Listener.RemoteEndPoint == old(Listener.RemoteEndPoint)
    {
      if Client != null {
        Client.Dispose();
      }
      if Listener != null {
        Listener.Dispose();
      }
    }
  }
}
