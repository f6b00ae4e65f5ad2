# ChatApp connection manager, modelled in Dafny

ChatApp is a peer-to-peer text chat endpoint. One process listens for an
inbound peer and can also connect out to one peer. On every new connection
the two sides exchange nicknames: one length byte, then the nickname's UTF-8
bytes. After that they exchange unframed text. This project models the
`ChatContext` class, the part of ChatApp that holds this logic:

- `transport.dfy` (module `Transport`): bytes, end points, and a stand-in for
  a TCP socket. Every answer the operating system gives is a parameter: whether
  a bind or connect succeeds, how many bytes a send call takes (`Transfer`),
  and what a blocking receive finds (`ReadResult`).
- `handshake.dfy` (module `Handshake`): the nickname frame. `SendHandshake`
  writes it with one send call. `ReceiveHandshake` is a pure function of what
  the two receives find. The lemmas cover the round trip, what a nickname
  longer than 255 bytes turns into, and what a split delivery does.
- `chat_context.dfy` (module `Chat`): the `ChatContext` class. It has the
  fields `Client`, `Listener`, `ClientNickname`, `ClientEndPoint` and
  `Status`. Its methods are `SetupListener`, `Listen`, `Connect`, `Send`,
  `Disconnect` and `Dispose`, plus `AcceptCompleted` and `ReceiveCompleted`
  for the bodies of the accept and receive callbacks. Three ghost fields hold
  what the .NET runtime keeps:
  - the accepts armed and not yet completed;
  - the receives armed and not yet completed, each with the socket it was
    armed on;
  - every event raised so far (`ConnectionRequested`, `MessageReceived`,
    `MessageSent`).

  The callbacks are split the way the code is: `EndReceive` and `EndAccept`
  are the `try` and `catch` parts, and the callbacks add the `finally`.
  `Dial` is the `try` block of `Connect`. The send loop is `WriteAll`, which
  `Transmit` specifies. `Valid()` is the invariant every operation keeps.
- `scenarios.dfy` (module `Scenarios`): clients that drive two contexts
  through their contracts. Alice and Bob introduce themselves and Bob says
  "hi". Eve is turned down. An endpoint tries to connect to itself.

Strings (nicknames and messages) are modelled as their UTF-8 bytes. Each
method returns a report of the path it took. The report marks the exceptions
that escape to the caller and the messages the C# code would log.

`Valid()` does not claim "`Client` is set exactly when `Status` is
`Connected`", because the code does not keep that. `Disconnect` leaves
`Status` alone. An accepted peer whose reply handshake fails stays in
`Client` although `Status` is not set to `Connected`. What is kept:
- an accept is pending only when a listener exists;
- while `Connected`, a receive is always pending;
- once a receive has been armed, a peer nickname is known;
- the client socket is never the listener.

### Where the code and the intended protocol differ (the model follows the code)

- The length byte is an unchecked cast. A nickname longer than 255 bytes is
  not refused: its length wraps modulo 256 (`LongNicknameWraps`).
- The nickname is read with one receive, which is never retried. A nickname
  that arrives in pieces fails the handshake (`SplitNicknameFails`).
- `Connect` tests `Client != null`, not the status. It never sets
  `ClientEndPoint`. After a failed connect or handshake it clears `Client`
  without closing the socket.
- `Disconnect` does not return the status to `Listening`. That happens only
  when the pending receive completes: it then reads on the current `Client`,
  which no longer matches.
- A failed receive clears `Client` and sets `Listening`. It keeps
  `ClientNickname` and `ClientEndPoint`.
- `Listen` does nothing while `Connected`, so an accepted connection stops the
  accept loop. Nothing re-arms it when that peer goes away.
- An accept armed before an outbound connect still completes while
  `Connected`. If approved, it replaces `Client`.
- When the listener has been disposed, the accept callback sets `NotReady`.
  The `Listen` in its `finally` then sets `Listening` and throws on the
  disposed listener.
- A failed bind leaves the unbound listener stored. A later `Listen` sets
  `Listening` and then throws, because that socket never started listening.
- After `Dispose`, `Connect` throws when it reads the disposed listener's end
  point.

## Model

| member | source | states |
|---|---|---|
| `Transport.Taken` | ChatApp/ChatContext.cs:44 | a send call takes no more bytes than it was asked to write and no more than the transport took; it takes fewer than asked only when the transport took fewer |
| `Transport.Received` | ChatApp/ChatContext.cs:205-209 | a blocking receive returns a prefix of the available bytes, at most the size asked for; it is short only when that is everything available, and it throws exactly when the read fails |
| `Handshake.SendHandshake` | ChatApp/ChatContext.cs:193-200 | one send call with the frame `[len % 256] + nickname`. It succeeds exactly when the transport takes all `len + 1` bytes without error. The bytes it did take are written either way |
| `Handshake.ReceiveHandshake` | ChatApp/ChatContext.cs:202-213 | succeeds exactly when the first receive finds at least one byte L and the second at least L bytes. The result is then exactly the first L bytes of the second receive, and its frame is exactly the bytes consumed. It fails with LengthNotReceived exactly when the first receive finds no byte |
| `Handshake.HandshakeRoundTrip` | ChatApp/ChatContext.cs:193-213 | for a nickname of at most 255 bytes, receiving the frame that SendHandshake writes gives back the same nickname, whatever follows the frame in the stream |
| `Handshake.LongNicknameWraps` | ChatApp/ChatContext.cs:195-210 | a nickname longer than 255 bytes is received as its first `len % 256` bytes, never as itself |
| `Handshake.SplitNicknameFails` | ChatApp/ChatContext.cs:208-210 | if the second receive finds only part of the nickname, the handshake fails with NicknameNotReceived |
| `Chat.Transmit` | ChatApp/ChatContext.cs:43-47 | the send loop's running total never exceeds the buffer length. The loop ends with success only once every byte is written |
| `Chat.TransmitOnHealthyLink` | ChatApp/ChatContext.cs:43-47 | when every send call succeeds, the loop writes the whole buffer and ends with Success |
| `Chat.TransmitStopsAtFirstError` | ChatApp/ChatContext.cs:44-45 | once a call fails, the loop ends: unless the whole buffer was already written, the first failing call's error is the final one (that no later call is made is TransmitIgnoresLaterAnswers) |
| `Chat.TransmitIgnoresLaterAnswers` | ChatApp/ChatContext.cs:44-45 | no call is made after the first failing one: two transports whose answers agree up to and including that call make the loop end with the same total and error |
| `Chat.Written` | ChatApp/ChatContext.cs:44 | the running total after a run of calls stays between the starting total and the buffer length, and a successful call whose count covers the unsent rest brings it to the buffer length |
| `Chat.TransmitEndsAtCall` | ChatApp/ChatContext.cs:44-45 | the loop ends exactly at the first call that either fails or writes the last byte, provided every earlier call succeeded without finishing the buffer: the result is the running total after that call and its error. With a successful final call this is termination once the buffer is fully written |
| `Chat.WriteAll` | ChatApp/ChatContext.cs:43-47 | the loop's final total and last error are exactly what Transmit gives for the transport's answers, and the client's output grows by exactly that many leading bytes of the message |
| `Chat.ChatContext.constructor` | ChatApp/ChatContext.cs:11-27 | a new context has no sockets, no peer, status NotReady, nothing pending and nothing raised |
| `Chat.ChatContext.SetupListener` | ChatApp/ChatContext.cs:29-37 | fails without change when a listener exists. Otherwise it stores a fresh socket bound to loopback:ListenPort (unbound if the bind fails, which throws) and leaves Status and the peer fields unchanged |
| `Chat.ChatContext.Send` | ChatApp/ChatContext.cs:39-53 | the client's output grows by exactly the first `sent` bytes of the message, as computed by Transmit. MessageSent is raised exactly when the final error is Success. With no client, nothing is written |
| `Chat.ChatContext.Connect` | ChatApp/ChatContext.cs:55-88 | nothing changes when a client is set, when there is no listener, when the listener is disposed (reading its end point throws), or when the target is the listener's own end point. Past those guards the report is Established, ConnectFailed or HandshakeFailed. It is Established exactly when the connect, the send of its own frame and the receive of the peer's frame all succeed. Then Client is a fresh socket whose output is exactly its frame, ClientNickname is the received nickname, Status is Connected and a receive is armed on it. On failure Client is null and Status and ClientNickname are unchanged |
| `Chat.ChatContext.Dial` | ChatApp/ChatContext.cs:69-88 | the try block of Connect: Established exactly when the connect, the send of its own frame and the receive of the peer's frame all succeed, with a fresh Client whose output is exactly its frame, the received nickname, Status Connected and a receive armed on it; otherwise ConnectFailed or HandshakeFailed with Client null and Status, ClientNickname and the pending receives unchanged |
| `Chat.ChatContext.Receive` | ChatApp/ChatContext.cs:90-93 | arms one receive on the current client, and none when there is no client |
| `Chat.ChatContext.ReceiveCompleted` | ChatApp/ChatContext.cs:94-115 | the peer is dropped exactly when the current client is not the socket the read was armed on, is disposed, or the read fails or finds no bytes. Then Client is null, Status is Listening and nothing is raised. Otherwise MessageReceived is raised with the nickname and the bytes read, at most 4096 of them. A new receive is armed only while Connected |
| `Chat.ChatContext.EndReceive` | ChatApp/ChatContext.cs:96-109 | the try and catch of the receive callback: the completed receive is no longer pending; the peer is dropped (Client null, Status Listening, nothing raised) exactly when the current client is not the armed socket, is disposed, or the read fails or finds no bytes; otherwise MessageReceived is raised with the bytes read and Client and Status are unchanged |
| `Chat.ChatContext.Disconnect` | ChatApp/ChatContext.cs:118-130 | with no client nothing changes. Otherwise the client is disposed with its output and end points unchanged, Client is null, ClientNickname is empty and ClientEndPoint is null; Status and everything else are unchanged |
| `Chat.ChatContext.Listen` | ChatApp/ChatContext.cs:132-139 | nothing changes while Connected. Otherwise Status becomes Listening, and one accept is armed exactly when the listener exists, is not disposed and is bound. Arming throws on a disposed listener and on one whose bind failed |
| `Chat.ChatContext.AcceptCompleted` | ChatApp/ChatContext.cs:139-190 | says which path the callback took. The peer fields change only when a request was approved. The accepted socket is disposed exactly when there is no handler or the request is rejected. The final status is Connected exactly after an approved request whose reply went out, or if it was Connected before and the listener was not disposed; otherwise it is Listening, even when the listener was disposed. Says what the closing Listen armed, or why arming threw |
| `Chat.ChatContext.EndAccept` | ChatApp/ChatContext.cs:141-185 | the try and catches of the accept callback: the completed accept is no longer pending; a disposed listener gives NotReady; otherwise the same paths, socket, peer fields and events as AcceptCompleted, with Status Connected after an accepted request and unchanged otherwise |
| `Chat.ChatContext.AdmitPeer` | ChatApp/ChatContext.cs:150-176 | with no ConnectionRequested handler the new socket is disposed and nothing else changes. A failed inbound handshake leaves the socket open and nothing else changed. Otherwise the request is answered |
| `Chat.ChatContext.AnswerRequest` | ChatApp/ChatContext.cs:158-173 | ConnectionRequested is raised with the peer's nickname and end point. Unless approved (the Accept flag defaults to false), the socket is disposed and the peer fields are unchanged. On approval Client, ClientNickname and ClientEndPoint are set before the reply; Status becomes Connected and a receive is armed exactly when the reply went out |
| `Chat.ChatContext.TakePeer` | ChatApp/ChatContext.cs:167-173 | Client, ClientNickname and ClientEndPoint are set to the accepted peer before the reply is sent; Status becomes Connected and a receive is armed on the peer exactly when the reply went out whole |
| `Chat.ChatContext.Dispose` | ChatApp/ChatContext.cs:215-219 | disposes the client and the listener where they exist, and clears nothing: each socket's output and end points stay as they were |
| `Scenarios.Introduce` | ChatApp/ChatContext.cs:55-191 | when Bob connects to Alice's listener and each side's receives find what the other wrote, both contexts are Connected and each has the other's nickname |
| `Scenarios.Conversation` | ChatApp/ChatContext.cs:39-116 | after the introduction, what Bob sends with "hi" is delivered to Alice's pending receive as exactly "hi", and the last event Alice raised is MessageReceived from Bob with text "hi" |
| `Scenarios.Rejection` | ChatApp/ChatContext.cs:158-165 | a request the handler does not approve leaves Alice Listening with no peer, Eve's socket disposed and an accept armed again |
| `Scenarios.SelfConnection` | ChatApp/ChatContext.cs:63-67 | connecting to one's own listening end point is refused, and the status and client are unchanged |

## Left out

- UTF-8: strings are modelled as their UTF-8 bytes, so encoding and decoding are the identity. Replacement of invalid byte sequences when decoding is not modelled.
- Logging: `Logger` output is not modelled. Each method's report names the path that would be logged.
- Threads and races: callbacks run as whole, sequential steps that the environment chooses. Interleaving inside a step is not modelled.
- Subscribers: ConnectionRequested subscribers are reduced to whether one exists, which is fixed when the context is made, and the Accept flag they leave. The log records MessageReceived and MessageSent whether or not anyone subscribed. Exceptions thrown by subscribers, and subscribers that call back into the context, are not modelled.
- The event arguments' timestamps (`DateTime.Now`) are not modelled.
- Chat.ChatContext.Receive: a `BeginReceive` that throws when it is called is not modelled. For `BeginAccept`, only two exceptions are modelled, in `Listen`: a disposed listener and one whose bind failed.
- Chat.ChatContext.AcceptCompleted: the branch for an accept that ends on a null listener (ChatContext.cs:144-148) is left out. An accept is armed only on an existing listener, and the listener is never cleared (`Valid()`).
- Chat.ChatContext.AcceptCompleted: an exception that escapes the callback's `finally` ends the process. The model only reports it, as `rearm == ListenerClosed`.
- Chat.ChatContext.Send: requires the transport's answers to make progress (a successful call takes at least one byte) and to be enough for the whole loop. A transport that reports success without taking bytes would make the C# loop spin forever, and that case is not modelled.
- Chat.ChatContext.SetupListener: `Bind` and `Listen(1)` are one success flag. An ephemeral port (ListenPort 0) is not modelled: the bound end point is always loopback:ListenPort.
- `EndPoint.Equals` is value equality of address and port.
- ChatApp/Program.cs, ChatApp/Prompt.cs, ChatApp/Logger.cs and the event-argument classes are not part of this model. The default `Accept = false` from ConnectionRequestEventArgs.cs:10 is modelled as the `approve` parameter.
