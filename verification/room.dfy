/**
 The room page's session controller. It remembers the current remote
 participant (`remoteEmailId`), turns server events and connection events
 into peer-provider calls, and emits signalling messages. Every handler is one
 atomic step from a session to a session and the messages it emits.
 */
module Room {
  import opened Js
  import opened Rtc
  import opened Protocol
  import opened Peer

  datatype Session = Session(remoteEmailId: Option<string>, myStream: Option<MediaStream>, peer: Provider)

  /**
   The session when the room page mounts for the first time. The provider
   wraps every route, so on a later visit the connection and the remote
   stream are whatever the earlier visit left behind.
   */
  const Mounted := Session(None, None, InitialProvider)

  datatype Reaction = Reaction(session: Session, out: seq<SignalMsg>)

  /**
   The meaning of an emitted offer: the description the local side now holds
   as its pending offer, or nothing when creating or applying it failed.
   */
  predicate OfferMatches(w: Wire, pc: PeerConnection) {
    && !w.Serialized?
    && (w.Structured? ==> w.desc.kind == Offer && pc.local == Some(w.desc) && pc.sig == HaveLocalOffer)
  }

  /**
   "user-joined": remember the newcomer, create an offer and send exactly one
   "call-user" to them, even when creating the offer failed.
   */
  function OnUserJoined(s: Session, emailId: string, o: OfferOutcome): (r: Reaction)
    ensures r.session.remoteEmailId == Some(emailId)
    ensures |r.out| == 1 && r.out[0].CallUser? && r.out[0].emailId == emailId
    ensures OfferMatches(r.out[0].offer, r.session.peer.pc)
    ensures r.out[0].offer.Absent? <==> !(o.made.Some? && o.localOk && s.peer.pc.sig != HaveRemoteOffer)
    ensures r.out[0].offer.Absent? ==> r.session.peer == s.peer
    ensures r.session.myStream == s.myStream && r.session.peer.remoteStream == s.peer.remoteStream
    // the connection is exactly what `createOffer` left, and the offer sent is what it resolved to
    ensures var c := CreateOffer(s.peer.pc, o); r.session.peer.pc == c.pc && r.out[0].offer == Emitted(c.result)
  {
    var c := CreateOffer(s.peer.pc, o);
    Reaction(s.(remoteEmailId := Some(emailId), peer := s.peer.(pc := c.pc)), [CallUser(emailId, Emitted(c.result))])
  }

  /**
   "incoming-call": remember the caller, answer its offer and send exactly
   one "call-accepted" back to it, carrying the answer or nothing.
   */
  function OnIncomingCall(s: Session, from: Option<string>, offer: Wire, parse: string -> Option<Wire>, o: AnswerOutcome): (r: Reaction)
    ensures r.session.remoteEmailId == from
    ensures |r.out| == 1 && r.out[0].CallAccepted? && r.out[0].callerEmailId == from
    ensures !r.out[0].ans.Serialized?
    ensures r.out[0].ans.Structured? ==>
              r.out[0].ans.desc.kind == Answer && r.session.peer.pc.local == Some(r.out[0].ans.desc) && r.session.peer.pc.sig == Stable
    ensures s.peer.pc.sig == HaveLocalOffer ==> r.out[0].ans.Absent? && r.session.peer == s.peer
    ensures s.peer.pc.sig != Stable ==> r.session.peer.pc.remote == s.peer.pc.remote
    ensures r.session.myStream == s.myStream && r.session.peer.remoteStream == s.peer.remoteStream
    // the connection is exactly what `createAnswer` left, and the answer sent is what it resolved to
    ensures var c := CreateAnswer(s.peer.pc, offer, parse, o); r.session.peer.pc == c.pc && r.out[0].ans == Emitted(c.result)
  {
    var c := CreateAnswer(s.peer.pc, offer, parse, o);
    Reaction(s.(remoteEmailId := from, peer := s.peer.(pc := c.pc)), [CallAccepted(from, Emitted(c.result))])
  }

  /** "call-accepted": apply the answer; nothing is emitted and the remote participant is unchanged. */
  function OnCallAccepted(s: Session, ans: Wire, parse: string -> Option<Wire>, remoteOk: bool): (r: Reaction)
    ensures r.out == []
    ensures r.session.remoteEmailId == s.remoteEmailId && r.session.myStream == s.myStream
    ensures r.session.peer.remoteStream == s.peer.remoteStream
    ensures r.session.peer.pc == SetRemoteAnswer(s.peer.pc, ans, parse, remoteOk)
    ensures s.peer.pc.sig == Stable ==> r.session == s
  {
    Reaction(s.(peer := s.peer.(pc := SetRemoteAnswer(s.peer.pc, ans, parse, remoteOk))), [])
  }

  /**
   "negotiationneeded": always create and apply a fresh offer; send it as
   "call-user" only when a remote participant is known, and then to them.
   */
  function OnNegotiationNeeded(s: Session, o: OfferOutcome): (r: Reaction)
    ensures r.session.peer.pc == CreateOffer(s.peer.pc, o).pc
    ensures r.session.remoteEmailId == s.remoteEmailId && r.session.myStream == s.myStream
    ensures r.session.peer.remoteStream == s.peer.remoteStream
    ensures |r.out| <= 1
    ensures |r.out| == 1 <==> TruthyOpt(s.remoteEmailId)
    ensures |r.out| == 1 ==>
              && r.out[0].CallUser? && Some(r.out[0].emailId) == s.remoteEmailId
              && OfferMatches(r.out[0].offer, r.session.peer.pc)
              && r.out[0].offer == Emitted(CreateOffer(s.peer.pc, o).result)
  {
    var c := CreateOffer(s.peer.pc, o);
    var out := if TruthyOpt(s.remoteEmailId) then [CallUser(s.remoteEmailId.value, Emitted(c.result))] else [];
    Reaction(s.(peer := s.peer.(pc := c.pc)), out)
  }

  /**
   `getUserMediaStream` on mount: when the camera and microphone are granted
   (`media` is the stream), keep the stream and add all its tracks to the
   connection; when refused, the error is logged and nothing else happens.
   */
  method GetUserMediaStream(s: Session, media: Option<MediaStream>) returns (r: Session)
    ensures media.None? ==> r == s
    ensures media.Some? ==>
              && r.myStream == media
              && r.peer.pc.senders == s.peer.pc.senders + SendersOf(media.value)
              && r.peer.pc.sig == s.peer.pc.sig && r.peer.pc.local == s.peer.pc.local && r.peer.pc.remote == s.peer.pc.remote
              && r.peer.pc.candidates == s.peer.pc.candidates
              && r.remoteEmailId == s.remoteEmailId && r.peer.remoteStream == s.peer.remoteStream
  {
    match media
    case None =>
      r := s;
    case Some(stream) =>
      var pc := SendStream(s.peer.pc, stream);
      r := s.(myStream := Some(stream), peer := s.peer.(pc := pc));
  }

  /**
   Everything that can happen to a mounted room page once media has been
   acquired (the code may acquire it again on a re-render; that is not modelled):
   the three server events it subscribes to, and the connection's
   "negotiationneeded", "track" and "icecandidate" events. Each event carries
   the outcomes of the browser calls its handler makes.
   */
  datatype RoomEvent =
    | UserJoinedEv(emailId: string, offerOutcome: OfferOutcome)
    | IncomingCallEv(from: Option<string>, offer: Wire, answerOutcome: AnswerOutcome)
    | CallAcceptedEv(ans: Wire, remoteOk: bool)
    | NegotiationNeededEv(negotiationOutcome: OfferOutcome)
    | TrackEv(streams: seq<MediaStream>)
    | LocalCandidateEv(candidate: Option<Candidate>)

  /** Whom a message is for: every signalling message the session sends names its current remote participant. */
  predicate AddressedTo(m: SignalMsg, remote: Option<string>) {
    match m
    case CallUser(emailId, _) => remote == Some(emailId)
    case CallAccepted(emailId, _) => remote == emailId
    case _ => false
  }

  /**
   Dispatch one event. A locally gathered ICE candidate is only logged: it is
   never sent to the server.
   */
  function Handle(s: Session, parse: string -> Option<Wire>, ev: RoomEvent): (r: Reaction)
    ensures forall i :: 0 <= i < |r.out| ==> AddressedTo(r.out[i], r.session.remoteEmailId)
    ensures |r.out| <= 1
    ensures Consistent(s.peer.pc) ==> Consistent(r.session.peer.pc)
  {
    match ev
    case UserJoinedEv(emailId, o) => OnUserJoined(s, emailId, o)
    case IncomingCallEv(from, offer, o) => OnIncomingCall(s, from, offer, parse, o)
    case CallAcceptedEv(ans, ok) => OnCallAccepted(s, ans, parse, ok)
    case NegotiationNeededEv(o) => OnNegotiationNeeded(s, o)
    case TrackEv(streams) => Reaction(s.(peer := OnTrack(s.peer, streams)), [])
    case LocalCandidateEv(_) => Reaction(s, [])
  }

  /** Dispatch a sequence of events in order, collecting what is emitted. */
  function HandleAll(s: Session, parse: string -> Option<Wire>, evs: seq<RoomEvent>): Reaction
    decreases |evs|
  {
    if |evs| == 0 then Reaction(s, [])
    else
      var first := Handle(s, parse, evs[0]);
      var rest := HandleAll(first.session, parse, evs[1..]);
      Reaction(rest.session, first.out + rest.out)
  }

  /**
   Whatever the events, the client only ever sends "call-user" and
   "call-accepted": no "ice-candidate" message leaves it.
   */
  lemma {:induction false} OnlyCallMessages(s: Session, parse: string -> Option<Wire>, evs: seq<RoomEvent>)
    ensures forall i :: 0 <= i < |HandleAll(s, parse, evs).out| ==>
              HandleAll(s, parse, evs).out[i].CallUser? || HandleAll(s, parse, evs).out[i].CallAccepted?
    decreases |evs|
  {
    if |evs| > 0 {
      var first := Handle(s, parse, evs[0]);
      OnlyCallMessages(first.session, parse, evs[1..]);
      var all := HandleAll(s, parse, evs);
      var rest := HandleAll(first.session, parse, evs[1..]);
      assert all.out == first.out + rest.out;
      forall i | 0 <= i < |all.out|
        ensures all.out[i].CallUser? || all.out[i].CallAccepted?
      {
        if i < |first.out| {
          assert AddressedTo(first.out[i], first.session.remoteEmailId);
        } else {
          assert all.out[i] == rest.out[i - |first.out|];
        }
      }
    }
  }

  /** The connection stays consistent with its signalling state through any run of events. */
  lemma {:induction false} HandleAllConsistent(s: Session, parse: string -> Option<Wire>, evs: seq<RoomEvent>)
    requires Consistent(s.peer.pc)
    ensures Consistent(HandleAll(s, parse, evs).session.peer.pc)
    decreases |evs|
  {
    if |evs| > 0 {
      HandleAllConsistent(Handle(s, parse, evs[0]).session, parse, evs[1..]);
    }
  }
}
