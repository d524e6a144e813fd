/**
 The signalling server: a registry of who is connected where, and a relay
 that forwards offers, answers and ICE candidates between sockets.

 The registry is two independent maps, email to socket and socket to email,
 plus room membership. They are NOT kept mutually inverse: a socket that joins
 twice under two emails leaves both emails pointing at it, and a disconnect
 deletes the email its socket last registered even when that email has since
 been registered from another socket. Rooms only ever grow.

 Each handler is a pure step from a registry and one inbound event to a new
 registry and the emits it performs. One emit is one `Outbound`, addressed
 to a set of sockets: a reply to the sender, a message to one socket, or a
 broadcast to the other members of a room.
 */
module Server {
  import opened Js
  import opened Protocol

  datatype Registry = Registry(
    emailToSocket: map<string, SocketId>,
    socketToEmail: map<SocketId, string>,
    rooms: map<string, set<SocketId>>)

  /** The registry when the server starts. */
  const Empty := Registry(map[], map[], map[])

  /** The sockets in room `roomId` (none if nobody ever joined it). */
  function Members(reg: Registry, roomId: string): set<SocketId> {
    if roomId in reg.rooms then reg.rooms[roomId] else {}
  }

  /** Every socket that has joined some room. */
  function AllMembers(reg: Registry): set<SocketId> {
    set r, s | r in reg.rooms && s in reg.rooms[r] :: s
  }

  /** One emit: an event and the sockets it is delivered to. */
  datatype Outbound<O, A, C> = Outbound(to: set<SocketId>, event: ServerEvent<O, A, C>)

  /** What one handler invocation leaves behind. */
  datatype Reply<O, A, C> = Reply(reg: Registry, out: seq<Outbound<O, A, C>>)

  /** An inbound socket event: a client message, or the connection closing. */
  datatype Input<O, A, C> = Message(msg: ClientMsg<O, A, C>) | Disconnect

  /** The events one emit delivers to socket `s`. */
  function Delivered<O, A, C>(o: Outbound<O, A, C>, s: SocketId): seq<ServerEvent<O, A, C>> {
    if s in o.to then [o.event] else []
  }

  /** The events socket `s` receives from a sequence of emits, in emission order. */
  function Inbox<O, A, C>(outs: seq<Outbound<O, A, C>>, s: SocketId): seq<ServerEvent<O, A, C>> {
    if |outs| == 0 then [] else Delivered(outs[0], s) + Inbox(outs[1..], s)
  }

  lemma InboxPair<O, A, C>(o1: Outbound<O, A, C>, o2: Outbound<O, A, C>, s: SocketId)
    ensures Inbox([o1], s) == Delivered(o1, s)
    ensures Inbox([o1, o2], s) == Delivered(o1, s) + Delivered(o2, s)
  {
    assert [o1][1..] == [];
    assert [o1, o2][1..] == [o2];
    assert [o2][1..] == [];
  }

  /** What a run of emits delivers is what its two halves deliver, one after the other. */
  lemma {:induction false} InboxAppend<O, A, C>(a: seq<Outbound<O, A, C>>, b: seq<Outbound<O, A, C>>, s: SocketId)
    ensures Inbox(a + b, s) == Inbox(a, s) + Inbox(b, s)
    decreases |a|
  {
    if |a| == 0 {
      assert a + b == b;
    } else {
      var ab := a + b;
      assert ab[0] == a[0];
      assert ab[1..] == a[1..] + b;
      InboxAppend(a[1..], b, s);
      calc {
        Inbox(ab, s);
        Delivered(a[0], s) + Inbox(a[1..] + b, s);
        Delivered(a[0], s) + (Inbox(a[1..], s) + Inbox(b, s));
        (Delivered(a[0], s) + Inbox(a[1..], s)) + Inbox(b, s);
      }
    }
  }

  /**
   "join-room" from socket `s`: upsert both maps (last write wins), add `s` to
   the room, answer "joined-room" to `s` alone and announce `s` to every other
   member of the room.
   */
  function OnJoinRoom<O, A, C>(reg: Registry, s: SocketId, msg: ClientMsg<O, A, C>): (r: Reply<O, A, C>)
    requires msg.JoinRoom?
    ensures Lookup(r.reg.emailToSocket, msg.emailId) == Some(s)
    ensures Lookup(r.reg.socketToEmail, s) == Some(msg.emailId)
    ensures forall e :: e != msg.emailId ==> Lookup(r.reg.emailToSocket, e) == Lookup(reg.emailToSocket, e)
    ensures forall t :: t != s ==> Lookup(r.reg.socketToEmail, t) == Lookup(reg.socketToEmail, t)
    ensures Members(r.reg, msg.roomId) == Members(reg, msg.roomId) + {s}
    ensures forall q :: q != msg.roomId ==> Members(r.reg, q) == Members(reg, q)
    ensures Inbox(r.out, s) == [JoinedRoom(msg.roomId)]
    ensures forall m :: m in Members(reg, msg.roomId) && m != s ==> Inbox(r.out, m) == [UserJoined(msg.emailId, s)]
    ensures forall m :: m !in Members(reg, msg.roomId) && m != s ==> Inbox(r.out, m) == []
  {
    var reg' := Registry(
      reg.emailToSocket[msg.emailId := s],
      reg.socketToEmail[s := msg.emailId],
      reg.rooms[msg.roomId := Members(reg, msg.roomId) + {s}]);
    var out := [Outbound({s}, JoinedRoom(msg.roomId)),
                Outbound(Members(reg', msg.roomId) - {s}, UserJoined(msg.emailId, s))];
    InboxPair(out[0], out[1], s);
    forall m | m != s
      ensures Inbox(out, m) == (if m in Members(reg, msg.roomId) then [UserJoined(msg.emailId, s)] else [])
    {
      InboxPair(out[0], out[1], m);
    }
    Reply(reg', out)
  }

  /**
   "call-user": forward the offer unchanged to the socket registered for
   `emailId`, naming the caller by its registered email (possibly undefined)
   and its socket. No target, no emit. Room membership is not consulted.
   */
  function OnCallUser<O, A, C>(reg: Registry, s: SocketId, msg: ClientMsg<O, A, C>): (r: Reply<O, A, C>)
    requires msg.CallUser?
    ensures r.reg == reg
    ensures msg.emailId !in reg.emailToSocket ==> r.out == []
    ensures msg.emailId in reg.emailToSocket ==>
              var target := reg.emailToSocket[msg.emailId];
              && Inbox(r.out, target) == [IncomingCall(Lookup(reg.socketToEmail, s), msg.offer, s)]
              && forall m :: m != target ==> Inbox(r.out, m) == []
  {
    var fromEmail := Lookup(reg.socketToEmail, s);
    match Lookup(reg.emailToSocket, msg.emailId)
    case None => Reply(reg, [])
    case Some(target) => Reply(reg, [Outbound({target}, IncomingCall(fromEmail, msg.offer, s))])
  }

  /**
   "call-accepted": forward the answer unchanged to the socket registered for
   `emailId`, with the answerer's email and socket; silently dropped when
   there is no such socket (in this model, where "join-room" always carries
   an email, an undefined `emailId` never has one).
   */
  function OnCallAccepted<O, A, C>(reg: Registry, s: SocketId, msg: ClientMsg<O, A, C>): (r: Reply<O, A, C>)
    requires msg.CallAccepted?
    ensures r.reg == reg
    ensures !(msg.callerEmailId.Some? && msg.callerEmailId.value in reg.emailToSocket) ==> r.out == []
    ensures msg.callerEmailId.Some? && msg.callerEmailId.value in reg.emailToSocket ==>
              var target := reg.emailToSocket[msg.callerEmailId.value];
              && Inbox(r.out, target) == [Accepted(Lookup(reg.socketToEmail, s), msg.ans, s)]
              && forall m :: m != target ==> Inbox(r.out, m) == []
  {
    var target := if msg.callerEmailId.Some? then Lookup(reg.emailToSocket, msg.callerEmailId.value) else None;
    var fromEmail := Lookup(reg.socketToEmail, s);
    match target
    case None => Reply(reg, [])
    case Some(t) => Reply(reg, [Outbound({t}, Accepted(fromEmail, msg.ans, s))])
  }

  /**
   "ice-candidate": forward the candidate straight to the named socket, tagged
   with the sender's socket, when both the target and the candidate are truthy.
   The registry is not consulted.
   */
  function OnIceCandidate<O, A, C>(reg: Registry, s: SocketId, msg: ClientMsg<O, A, C>): (r: Reply<O, A, C>)
    requires msg.IceCandidate?
    ensures r.reg == reg
    ensures |r.out| > 0 <==> Truthy(msg.targetSocketId) && msg.candidate.Some?
    ensures Truthy(msg.targetSocketId) && msg.candidate.Some? ==>
              && Inbox(r.out, msg.targetSocketId) == [RelayedCandidate(s, msg.candidate.value)]
              && forall m :: m != msg.targetSocketId ==> Inbox(r.out, m) == []
  {
    if msg.targetSocketId != "" && msg.candidate.Some? then
      Reply(reg, [Outbound({msg.targetSocketId}, RelayedCandidate(s, msg.candidate.value))])
    else
      Reply(reg, [])
  }

  /**
   "disconnect": forget the socket and, when its registered email is truthy,
   delete that email's entry, whichever socket the entry points to now.
   Rooms are left as they are; nothing is emitted and nobody is told.
   */
  function OnDisconnect(reg: Registry, s: SocketId): (r: Registry)
    ensures r.rooms == reg.rooms
    ensures s !in r.socketToEmail
    ensures forall t :: t != s ==> Lookup(r.socketToEmail, t) == Lookup(reg.socketToEmail, t)
    ensures s in reg.socketToEmail && Truthy(reg.socketToEmail[s]) ==>
              r.emailToSocket.Keys == reg.emailToSocket.Keys - {reg.socketToEmail[s]}
    ensures !(s in reg.socketToEmail && Truthy(reg.socketToEmail[s])) ==> r.emailToSocket == reg.emailToSocket
    ensures forall e :: e in r.emailToSocket ==> e in reg.emailToSocket && r.emailToSocket[e] == reg.emailToSocket[e]
  {
    var email := Lookup(reg.socketToEmail, s);
    var emailToSocket := if email.Some? && email.value != "" then reg.emailToSocket - {email.value} else reg.emailToSocket;
    Registry(emailToSocket, reg.socketToEmail - {s}, reg.rooms)
  }

  /** Joining never removes anybody from any room, and the joiner is then in one. */
  lemma JoinKeepsMembers<O, A, C>(reg: Registry, s: SocketId, msg: ClientMsg<O, A, C>)
    requires msg.JoinRoom?
    ensures forall q :: Members(reg, q) <= Members(OnJoinRoom(reg, s, msg).reg, q)
    ensures AllMembers(reg) <= AllMembers(OnJoinRoom(reg, s, msg).reg)
    ensures s in AllMembers(OnJoinRoom(reg, s, msg).reg)
  {
    var reg' := OnJoinRoom(reg, s, msg).reg;
    forall t | t in AllMembers(reg)
      ensures t in AllMembers(reg')
    {
      var q :| q in reg.rooms && t in reg.rooms[q];
      assert t in Members(reg, q);
      if q == msg.roomId {
        assert t in Members(reg', q);
      } else {
        assert Members(reg', q) == Members(reg, q);
      }
      assert q in reg'.rooms && t in reg'.rooms[q];
    }
    assert s in Members(reg', msg.roomId);
    assert msg.roomId in reg'.rooms && s in reg'.rooms[msg.roomId];
  }

  /** Dispatch one inbound event from socket `s` to its handler. */
  function Step<O, A, C>(reg: Registry, s: SocketId, input: Input<O, A, C>): (r: Reply<O, A, C>)
    ensures !input.Disconnect? && !input.msg.JoinRoom? ==> r.reg == reg
    ensures input.Disconnect? ==> r.out == []
    ensures AllMembers(reg) <= AllMembers(r.reg)
    ensures forall q :: Members(reg, q) <= Members(r.reg, q)
  {
    match input
    case Disconnect => Reply(OnDisconnect(reg, s), [])
    case Message(m) =>
      match m
      case JoinRoom(_, _) =>
        JoinKeepsMembers(reg, s, m);
        OnJoinRoom(reg, s, m)
      case CallUser(_, _) => OnCallUser(reg, s, m)
      case CallAccepted(_, _) => OnCallAccepted(reg, s, m)
      case IceCandidate(_, _) => OnIceCandidate(reg, s, m)
  }

  /** Handle a sequence of (sender, event) pairs in order, collecting every emit. */
  function Run<O, A, C>(reg: Registry, steps: seq<(SocketId, Input<O, A, C>)>): Reply<O, A, C>
    decreases |steps|
  {
    if |steps| == 0 then Reply(reg, [])
    else
      var first := Step(reg, steps[0].0, steps[0].1);
      var rest := Run(first.reg, steps[1..]);
      Reply(rest.reg, first.out + rest.out)
  }
}

/** Properties of whole runs of the server, relating several handler calls. */
module ServerRuns {
  import opened Js
  import opened Protocol
  import opened Server

  /**
   Every socket the registry can route to, or knows an email for, has at some
   point joined a room: only "join-room" writes the maps, and it always joins a
   room too. Rooms never shrink here, so such a socket is still listed in one.
   */
  predicate Wf(reg: Registry) {
    && (forall t :: t in reg.socketToEmail ==> t in AllMembers(reg))
    && (forall e :: e in reg.emailToSocket ==> reg.emailToSocket[e] in AllMembers(reg))
  }

  lemma StepPreservesWf<O, A, C>(reg: Registry, s: SocketId, input: Input<O, A, C>)
    requires Wf(reg)
    ensures Wf(Step(reg, s, input).reg)
  {
  }

  lemma {:induction false} RunPreservesWf<O, A, C>(reg: Registry, steps: seq<(SocketId, Input<O, A, C>)>)
    requires Wf(reg)
    ensures Wf(Run(reg, steps).reg)
    decreases |steps|
  {
    if |steps| > 0 {
      StepPreservesWf(reg, steps[0].0, steps[0].1);
      RunPreservesWf(Step(reg, steps[0].0, steps[0].1).reg, steps[1..]);
    }
  }

  /** A relay message: one that only forwards and never touches the registry. */
  predicate IsRelay<O, A, C>(input: Input<O, A, C>) {
    input.Message? && !input.msg.JoinRoom?
  }

  /** Any number of "call-user", "call-accepted" and "ice-candidate" messages leave the registry exactly as it was. */
  lemma {:induction false} RelaysKeepRegistry<O, A, C>(reg: Registry, steps: seq<(SocketId, Input<O, A, C>)>)
    requires forall i :: 0 <= i < |steps| ==> IsRelay(steps[i].1)
    ensures Run(reg, steps).reg == reg
    decreases |steps|
  {
    if |steps| > 0 {
      assert IsRelay(steps[0].1);
      assert Step(reg, steps[0].0, steps[0].1).reg == reg;
      assert forall i :: 0 <= i < |steps[1..]| ==> steps[1..][i] == steps[i + 1];
      RelaysKeepRegistry(reg, steps[1..]);
    }
  }

  /** What a socket receives over a run is what it receives from each step, in order. */
  lemma {:induction false} RunInbox<O, A, C>(reg: Registry, steps: seq<(SocketId, Input<O, A, C>)>, m: SocketId)
    requires |steps| > 0
    ensures Inbox(Run(reg, steps).out, m) ==
            Inbox(Step(reg, steps[0].0, steps[0].1).out, m) + Inbox(Run(Step(reg, steps[0].0, steps[0].1).reg, steps[1..]).out, m)
  {
    var first := Step(reg, steps[0].0, steps[0].1);
    InboxAppend(first.out, Run(first.reg, steps[1..]).out, m);
  }

  /**
   The two maps are not inverse: one socket joining under two emails leaves
   both emails routed to it, while the socket is known by the second only.
   */
  lemma OneSocketTwoEmails<O, A, C>(s: SocketId, roomId: string, a: string, b: string)
    requires a != b
    ensures var reg := Run<O, A, C>(Empty, [(s, Message(JoinRoom(roomId, a))), (s, Message(JoinRoom(roomId, b)))]).reg;
            && Lookup(reg.emailToSocket, a) == Some(s)
            && Lookup(reg.emailToSocket, b) == Some(s)
            && Lookup(reg.socketToEmail, s) == Some(b)
  {
    var steps: seq<(SocketId, Input<O, A, C>)> := [(s, Message(JoinRoom(roomId, a))), (s, Message(JoinRoom(roomId, b)))];
    var r1 := OnJoinRoom(Empty, s, steps[0].1.msg);
    var r2 := OnJoinRoom(r1.reg, s, steps[1].1.msg);
    assert steps[1..] == [steps[1]] && steps[1..][1..] == [];
    assert Run(r2.reg, steps[1..][1..]).reg == r2.reg;
    assert Run(r1.reg, steps[1..]).reg == r2.reg;
  }

  /**
   A consequence: after that socket disconnects, the first email still routes
   to the socket that is gone.
   */
  lemma StaleRouteAfterDisconnect<O, A, C>(s: SocketId, roomId: string, a: string, b: string)
    requires a != b && Truthy(b)
    ensures var reg := Run<O, A, C>(Empty, [(s, Message(JoinRoom(roomId, a))), (s, Message(JoinRoom(roomId, b))), (s, Disconnect)]).reg;
            && Lookup(reg.emailToSocket, a) == Some(s)
            && b !in reg.emailToSocket
            && s !in reg.socketToEmail
  {
    var steps: seq<(SocketId, Input<O, A, C>)> := [(s, Message(JoinRoom(roomId, a))), (s, Message(JoinRoom(roomId, b))), (s, Disconnect)];
    var r1 := OnJoinRoom(Empty, s, steps[0].1.msg);
    var r2 := OnJoinRoom(r1.reg, s, steps[1].1.msg);
    var r3: Reply<O, A, C> := Reply(OnDisconnect(r2.reg, s), []);
    assert steps[1..] == [steps[1], steps[2]] && steps[1..][1..] == [steps[2]] && steps[1..][1..][1..] == [];
    assert Run(r3.reg, steps[1..][1..][1..]).reg == r3.reg;
    assert Run(r2.reg, steps[1..][1..]).reg == r3.reg;
    assert Run(r1.reg, steps[1..]).reg == r3.reg;
  }

  /**
   A disconnect deletes the email its socket registered even when that email
   has been registered since from another, still connected socket.
   */
  lemma DisconnectEvictsNewerRegistration<O, A, C>(s1: SocketId, s2: SocketId, roomId: string, a: string)
    requires s1 != s2 && Truthy(a)
    ensures var reg := Run<O, A, C>(Empty, [(s1, Message(JoinRoom(roomId, a))), (s2, Message(JoinRoom(roomId, a))), (s1, Disconnect)]).reg;
            && a !in reg.emailToSocket
            && Lookup(reg.socketToEmail, s2) == Some(a)
  {
    var steps: seq<(SocketId, Input<O, A, C>)> := [(s1, Message(JoinRoom(roomId, a))), (s2, Message(JoinRoom(roomId, a))), (s1, Disconnect)];
    var r1 := OnJoinRoom(Empty, s1, steps[0].1.msg);
    var r2 := OnJoinRoom(r1.reg, s2, steps[1].1.msg);
    var r3: Reply<O, A, C> := Reply(OnDisconnect(r2.reg, s1), []);
    assert steps[1..] == [steps[1], steps[2]] && steps[1..][1..] == [steps[2]] && steps[1..][1..][1..] == [];
    assert Run(r3.reg, steps[1..][1..][1..]).reg == r3.reg;
    assert Run(r2.reg, steps[1..][1..]).reg == r3.reg;
    assert Run(r1.reg, steps[1..]).reg == r3.reg;
  }

  /** Reconnecting: join, disconnect, join again from a new socket resolves the email to the new socket only. */
  lemma Reconnect<O, A, C>(s1: SocketId, s2: SocketId, roomId: string, a: string)
    requires s1 != s2
    ensures var reg := Run<O, A, C>(Empty, [(s1, Message(JoinRoom(roomId, a))), (s1, Disconnect), (s2, Message(JoinRoom(roomId, a)))]).reg;
            && Lookup(reg.emailToSocket, a) == Some(s2)
            && s1 !in reg.socketToEmail
            && Lookup(reg.socketToEmail, s2) == Some(a)
  {
    var steps: seq<(SocketId, Input<O, A, C>)> := [(s1, Message(JoinRoom(roomId, a))), (s1, Disconnect), (s2, Message(JoinRoom(roomId, a)))];
    var r1 := OnJoinRoom(Empty, s1, steps[0].1.msg);
    var r2: Reply<O, A, C> := Reply(OnDisconnect(r1.reg, s1), []);
    var r3 := OnJoinRoom(r2.reg, s2, steps[2].1.msg);
    assert steps[1..] == [steps[1], steps[2]] && steps[1..][1..] == [steps[2]] && steps[1..][1..][1..] == [];
    assert Run(r3.reg, steps[1..][1..][1..]).reg == r3.reg;
    assert Run(r2.reg, steps[1..][1..]).reg == r3.reg;
    assert Run(r1.reg, steps[1..]).reg == r3.reg;
  }
}
