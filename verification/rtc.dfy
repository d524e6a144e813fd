/**
 An abstract `RTCPeerConnection`: only the parts the signalling code reads or
 changes. Descriptions are applied following the offer/answer state machine of
 section 3.2 of RFC 8829 (JSEP), restricted to full offers and answers
 (no provisional answers, no rollback). Whether a browser call succeeds for
 reasons outside that table (a malformed SDP, a closed connection) is an
 `ok` parameter of each call.
 */
module Rtc {
  import opened Js

  datatype SdpType = Offer | Answer

  /** An `RTCSessionDescription`: its `type` and its opaque `sdp` text. */
  datatype Description = Description(kind: SdpType, sdp: string)

  /** The `signalingState` values reachable with full offers and answers. */
  datatype SignalingState = Stable | HaveLocalOffer | HaveRemoteOffer

  datatype Track = Track(id: string)

  datatype MediaStream = MediaStream(id: string, tracks: seq<Track>)

  /** What `addTrack(track, stream)` records: the track and the stream it belongs to. */
  datatype Sender = Sender(track: Track, streamId: string)

  /** A remote ICE candidate, opaque to the signalling code. */
  datatype Candidate = Candidate(candidate: string)

  datatype PeerConnection = PeerConnection(
    sig: SignalingState,
    local: Option<Description>,
    remote: Option<Description>,
    senders: seq<Sender>,
    candidates: seq<Candidate>)

  /** A newly constructed connection. */
  const Initial := PeerConnection(Stable, None, None, [], [])

  /** JSEP: the state after applying a LOCAL description of type `k` in state `s`, or None when JSEP forbids it. */
  function LocalTransition(s: SignalingState, k: SdpType): Option<SignalingState> {
    match (s, k)
    case (Stable, Offer) => Some(HaveLocalOffer)
    case (HaveLocalOffer, Offer) => Some(HaveLocalOffer)
    case (HaveRemoteOffer, Answer) => Some(Stable)
    case _ => None
  }

  /** JSEP: the state after applying a REMOTE description of type `k` in state `s`, or None when JSEP forbids it. */
  function RemoteTransition(s: SignalingState, k: SdpType): Option<SignalingState> {
    match (s, k)
    case (Stable, Offer) => Some(HaveRemoteOffer)
    case (HaveRemoteOffer, Offer) => Some(HaveRemoteOffer)
    case (HaveLocalOffer, Answer) => Some(Stable)
    case _ => None
  }

  /**
   What the connection's descriptions must look like in each signalling state:
   a pending local (remote) offer in have-local-offer (have-remote-offer), and
   in stable either nothing yet or one offer and one answer.
   */
  predicate Consistent(pc: PeerConnection) {
    && (pc.sig == HaveLocalOffer ==> pc.local.Some? && pc.local.value.kind == Offer)
    && (pc.sig == HaveRemoteOffer ==> pc.remote.Some? && pc.remote.value.kind == Offer)
    && (pc.sig == Stable ==>
          (pc.local.Some? <==> pc.remote.Some?) &&
          (pc.local.Some? ==> pc.local.value.kind != pc.remote.value.kind))
  }

  /** `setLocalDescription(d)`: None when the call rejects. Only the state and the local description change. */
  function SetLocal(pc: PeerConnection, d: Description, ok: bool): (r: Option<PeerConnection>)
    ensures r.Some? <==> ok && LocalTransition(pc.sig, d.kind).Some?
    ensures r.Some? ==> r.value.sig == LocalTransition(pc.sig, d.kind).value
    ensures r.Some? ==> r.value.local == Some(d) && r.value.remote == pc.remote
    ensures r.Some? ==> r.value.senders == pc.senders && r.value.candidates == pc.candidates
    ensures r.Some? && Consistent(pc) ==> Consistent(r.value)
  {
    if !ok then None
    else match LocalTransition(pc.sig, d.kind)
      case None => None
      case Some(s) => Some(pc.(sig := s, local := Some(d)))
  }

  /** `setRemoteDescription(d)`: None when the call rejects. Only the state and the remote description change. */
  function SetRemote(pc: PeerConnection, d: Description, ok: bool): (r: Option<PeerConnection>)
    ensures r.Some? <==> ok && RemoteTransition(pc.sig, d.kind).Some?
    ensures r.Some? ==> r.value.sig == RemoteTransition(pc.sig, d.kind).value
    ensures r.Some? ==> r.value.remote == Some(d) && r.value.local == pc.local
    ensures r.Some? ==> r.value.senders == pc.senders && r.value.candidates == pc.candidates
    ensures r.Some? && Consistent(pc) ==> Consistent(r.value)
  {
    if !ok then None
    else match RemoteTransition(pc.sig, d.kind)
      case None => None
      case Some(s) => Some(pc.(sig := s, remote := Some(d)))
  }

  /** `addTrack(track, stream)`: one more sender; the negotiation state is untouched. */
  function AddTrack(pc: PeerConnection, t: Track, stream: MediaStream): (r: PeerConnection)
    ensures r.senders == pc.senders + [Sender(t, stream.id)]
    ensures r.sig == pc.sig && r.local == pc.local && r.remote == pc.remote && r.candidates == pc.candidates
  {
    pc.(senders := pc.senders + [Sender(t, stream.id)])
  }

  /**
   `addIceCandidate(c)`: None when the call rejects, which it always does while
   no remote description has been applied (the candidate arrived too early).
   */
  function AddCandidate(pc: PeerConnection, c: Candidate, ok: bool): (r: Option<PeerConnection>)
    ensures r.Some? <==> ok && pc.remote.Some?
    ensures r.Some? ==> r.value.candidates == pc.candidates + [c]
    ensures r.Some? ==> r.value.(candidates := pc.candidates) == pc
  {
    if ok && pc.remote.Some? then Some(pc.(candidates := pc.candidates + [c])) else None
  }
}
