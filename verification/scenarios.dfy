/** Whole-protocol runs: the client models and the server model composed. */
module Scenarios {
  import opened Js
  import opened Rtc
  import opened Protocol
  import opened Server
  import opened Peer
  import opened Room
  import Home

  /**
   A join sent by the home page, handled by the server, registers the email
   at the sender's socket; since the form never sends an empty email, the
   socket's disconnect later removes that registration again.
   */
  lemma FormJoinThenDisconnect(reg: Registry, s: SocketId, email: string, roomId: string)
    requires Truthy(email) && Truthy(roomId)
    ensures var m := Home.HandleJoinRoom(email, roomId).out[0];
            var joined := Step<Wire, Wire, Candidate>(reg, s, Message(m));
            && Lookup(joined.reg.emailToSocket, email) == Some(s)
            && s in Members(joined.reg, roomId)
            && Inbox(joined.out, s) == [JoinedRoom(roomId)]
            && var left := Step<Wire, Wire, Candidate>(joined.reg, s, Disconnect);
               email !in left.reg.emailToSocket && s !in left.reg.socketToEmail
  {
  }

  /**
   The happy path between two freshly mounted pages (no media captured yet,
   no renegotiation), with every browser call succeeding. `a` joins room `roomId` from socket
   `sa`, then `b` joins from `sb`. `a` is told, offers, `b` answers, `a`
   applies the answer. Every payload arrives as it was sent, and both
   connections end stable holding each other's descriptions.
   */
  lemma CallEstablished(sa: SocketId, sb: SocketId, a: string, b: string, roomId: string,
                        offerSdp: string, answerSdp: string, parse: string -> Option<Wire>)
    requires sa != sb && a != b
    ensures
      var joinA: SignalMsg := JoinRoom(roomId, a);
      var joinB: SignalMsg := JoinRoom(roomId, b);
      var reg1 := OnJoinRoom(Empty, sa, joinA).reg;
      var join2 := OnJoinRoom(reg1, sb, joinB);
      var offer := Description(Offer, offerSdp);
      var answer := Description(Answer, answerSdp);
      // the server tells `a` (and only `a`) about `b`
      && Inbox(join2.out, sa) == [UserJoined(b, sb)]
      && Inbox(join2.out, sb) == [JoinedRoom(roomId)]
      // `a` answers the announcement with its offer
      && var alice1 := OnUserJoined(Mounted, b, OfferOutcome(Some(offerSdp), true));
      && alice1.out == [CallUser(b, Structured(offer))]
      // the server forwards it to `b`, naming `a`
      && var call := OnCallUser(join2.reg, sa, alice1.out[0]);
      && Inbox(call.out, sb) == [IncomingCall(Some(a), Structured(offer), sa)]
      // `b` answers
      && var bob1 := OnIncomingCall(Mounted, Some(a), Structured(offer), parse, AnswerOutcome(true, Some(answerSdp), true));
      && bob1.out == [CallAccepted(Some(a), Structured(answer))]
      // the server forwards the answer to `a`, naming `b`
      && var accepted := Server.OnCallAccepted(join2.reg, sb, bob1.out[0]);
      && Inbox(accepted.out, sa) == [Accepted(Some(b), Structured(answer), sb)]
      // `a` applies it: both sides are stable, each holding the other's description
      && var alice2 := Room.OnCallAccepted(alice1.session, Structured(answer), parse, true);
      && alice2.session.peer.pc.sig == Stable && bob1.session.peer.pc.sig == Stable
      && alice2.session.peer.pc.local == Some(offer) && alice2.session.peer.pc.remote == Some(answer)
      && bob1.session.peer.pc.local == Some(answer) && bob1.session.peer.pc.remote == Some(offer)
      && alice2.session.remoteEmailId == Some(b) && bob1.session.remoteEmailId == Some(a)
  {
  }

  /**
   A room page whose own tracks trigger "negotiationneeded" before anybody
   has called it creates and applies an offer that it sends to no one. When
   the other side's offer then arrives, the glare guard skips it and no
   answer can be made: the reply carries nothing, and the caller, applying
   that nothing, stays in have-local-offer. Neither side becomes stable.
   */
  lemma EarlyNegotiationBlocksCall(own: string, theirs: string, from: string, parse: string -> Option<Wire>, o: AnswerOutcome, remoteOk: bool)
    ensures
      var bob1 := OnNegotiationNeeded(Mounted, OfferOutcome(Some(own), true));
      && bob1.out == []
      && bob1.session.peer.pc.sig == HaveLocalOffer
      && var alice1 := OnUserJoined(Mounted, "b", OfferOutcome(Some(theirs), true));
      && var bob2 := OnIncomingCall(bob1.session, Some(from), alice1.out[0].offer, parse, o);
      && bob2.out == [CallAccepted(Some(from), Absent)]
      && bob2.session.peer.pc == bob1.session.peer.pc
      && var alice2 := Room.OnCallAccepted(alice1.session, bob2.out[0].ans, parse, remoteOk);
      && alice2.session.peer.pc.sig == HaveLocalOffer
  {
  }
}
