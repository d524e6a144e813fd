/**
 The signalling message catalogue shared by the browser client and the relay
 server. Payloads the server only forwards (offers, answers, candidates) are
 type parameters, so the server model cannot look inside them.
 */
module Protocol {
  import opened Js
  import opened Rtc

  /** A socket.io connection id; socket.io never hands out an empty one. */
  type SocketId = s: string | s != "" witness "socket"

  /** Events a client sends to the server. */
  datatype ClientMsg<O, A, C> =
    | JoinRoom(roomId: string, emailId: string)                   // "join-room"
    | CallUser(emailId: string, offer: O)                         // "call-user"
    | CallAccepted(callerEmailId: Option<string>, ans: A)         // "call-accepted" (its emailId field)
    | IceCandidate(targetSocketId: string, candidate: Option<C>)  // "ice-candidate"; None is any falsy candidate

  /** Events the server sends to a client. */
  datatype ServerEvent<O, A, C> =
    | JoinedRoom(roomId: string)                                  // "joined-room"
    | UserJoined(emailId: string, socketId: SocketId)             // "user-joined"
    | IncomingCall(from: Option<string>, offer: O, socketId: SocketId)  // "incoming-call"
    | Accepted(from: Option<string>, ans: A, socketId: SocketId)  // "call-accepted"
    | RelayedCandidate(fromSocket: SocketId, candidate: C)        // "ice-candidate" (its from field)

  /**
   A session description as it appears in a payload: missing (or any value
   that is not a description), a JSON string, or a structured object.
   */
  datatype Wire = Absent | Serialized(json: string) | Structured(desc: Description)

  /** The wire form of what the client hands to `socket.emit`: an `undefined` offer or answer stays missing. */
  function Emitted(d: Option<Description>): (w: Wire)
    ensures d.None? <==> w.Absent?
    ensures d.Some? ==> w == Structured(d.value)
  {
    match d
    case None => Absent
    case Some(x) => Structured(x)
  }

  /** What the browser client sends. */
  type SignalMsg = ClientMsg<Wire, Wire, Candidate>

  /** What the browser client receives. */
  type SignalEvent = ServerEvent<Wire, Wire, Candidate>
}
