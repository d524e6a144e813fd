/**
 The client's peer provider: thin wrappers around one `RTCPeerConnection`
 that normalise incoming descriptions, guard on the signalling state, and
 swallow every failure (a failed call returns `undefined`, never throws).

 Each browser call's outcome is a parameter. `parse` stands for `JSON.parse`
 (None when it throws). A `Called` pairs the connection after the call with
 the value the wrapper resolves to.
 */
module Peer {
  import opened Js
  import opened Rtc
  import opened Protocol

  datatype Called<T> = Called(pc: PeerConnection, result: T)

  /** Outcomes of `peer.createOffer()` (the SDP it resolves with, or None if it rejects) and of `setLocalDescription`. */
  datatype OfferOutcome = OfferOutcome(made: Option<string>, localOk: bool)

  /** Outcomes of `setRemoteDescription`, of `peer.createAnswer()` and of `setLocalDescription`. */
  datatype AnswerOutcome = AnswerOutcome(remoteOk: bool, made: Option<string>, localOk: bool)

  /** The provider's state: the connection and the `remoteStream` slot. */
  datatype Provider = Provider(pc: PeerConnection, remoteStream: Option<MediaStream>)

  const InitialProvider := Provider(Initial, None)

  /** `typeof x === "string" ? JSON.parse(x) : x`; None when `JSON.parse` throws. */
  function Normalise(w: Wire, parse: string -> Option<Wire>): (r: Option<Wire>)
    ensures w.Serialized? ==> r == parse(w.json)
    ensures !w.Serialized? ==> r == Some(w)
  {
    match w
    case Serialized(json) => parse(json)
    case _ => Some(w)
  }

  /** `new RTCSessionDescription(x)`: None when the constructor throws, which it does for anything but a description. */
  function AsDescription(w: Wire): (r: Option<Description>)
    ensures r.Some? <==> w.Structured?
  {
    if w.Structured? then Some(w.desc) else None
  }

  /** Normalise, then construct: the description a payload stands for, if any. */
  function Decoded(w: Wire, parse: string -> Option<Wire>): Option<Description> {
    match Normalise(w, parse)
    case None => None
    case Some(x) => AsDescription(x)
  }

  /**
   `createOffer`: create an offer and apply it locally; resolve to that same
   offer, or to nothing (leaving the connection as it was) if either call fails.
   */
  function CreateOffer(pc: PeerConnection, o: OfferOutcome): (r: Called<Option<Description>>)
    ensures r.result.Some? <==> o.made.Some? && o.localOk && pc.sig != HaveRemoteOffer
    ensures r.result.Some? ==>
              && r.result.value == Description(Offer, o.made.value)
              && r.pc.local == r.result
              && r.pc.sig == HaveLocalOffer
              && r.pc.remote == pc.remote && r.pc.senders == pc.senders && r.pc.candidates == pc.candidates
    ensures r.result.None? ==> r.pc == pc
    ensures Consistent(pc) ==> Consistent(r.pc)
  {
    match o.made
    case None => Called(pc, None)
    case Some(sdp) =>
      var offer := Description(Offer, sdp);
      match SetLocal(pc, offer, o.localOk)
      case None => Called(pc, None)
      case Some(pc') => Called(pc', Some(offer))
  }

  /**
   `createAnswer(offer)`: normalise the offer; apply it remotely only when the
   connection is stable (otherwise just warn and go on); then create an answer
   and apply it locally. Resolves to that answer, or to nothing if any step
   fails. A failure after the remote offer was applied keeps that offer.
   */
  function CreateAnswer(pc: PeerConnection, offer: Wire, parse: string -> Option<Wire>, o: AnswerOutcome): (r: Called<Option<Description>>)
    // the glare guard: when not stable the remote description is never touched
    ensures pc.sig != Stable ==> r.pc.remote == pc.remote
    ensures pc.sig == HaveLocalOffer ==> r == Called(pc, None)
    // what a resolved answer means
    ensures r.result.Some? ==>
              && o.made.Some? && r.result.value == Description(Answer, o.made.value)
              && r.pc.local == r.result
              && r.pc.sig == Stable
    ensures r.result.Some? && pc.sig == Stable ==> r.pc.remote == Decoded(offer, parse)
    // when it resolves
    ensures pc.sig == Stable ==>
              (r.result.Some? <==>
                 && Decoded(offer, parse).Some? && Decoded(offer, parse).value.kind == Offer
                 && o.remoteOk && o.made.Some? && o.localOk)
    ensures pc.sig == HaveRemoteOffer ==>
              (r.result.Some? <==> Normalise(offer, parse).Some? && o.made.Some? && o.localOk)
    // the exact connection after a success
    ensures r.result.Some? && pc.sig == Stable ==>
              r.pc == pc.(sig := Stable, local := r.result, remote := Decoded(offer, parse))
    ensures r.result.Some? && pc.sig == HaveRemoteOffer ==> r.pc == pc.(sig := Stable, local := r.result)
    // a failure keeps the remote offer applied only when `setRemoteDescription` accepted it; otherwise nothing changes
    ensures r.result.None? ==>
              if pc.sig == Stable && o.remoteOk && Decoded(offer, parse).Some? && Decoded(offer, parse).value.kind == Offer
              then r.pc == pc.(sig := HaveRemoteOffer, remote := Decoded(offer, parse))
              else r.pc == pc
    ensures r.pc.senders == pc.senders && r.pc.candidates == pc.candidates
    ensures Consistent(pc) ==> Consistent(r.pc)
  {
    match Normalise(offer, parse)
    case None => Called(pc, None)
    case Some(parsed) =>
      var applied :=
        if pc.sig != Stable then Some(pc)
        else match AsDescription(parsed)
          case None => None
          case Some(d) => SetRemote(pc, d, o.remoteOk);
      match applied
      case None => Called(pc, None)
      case Some(pc1) =>
        match o.made
        case None => Called(pc1, None)
        case Some(sdp) =>
          var answer := Description(Answer, sdp);
          match SetLocal(pc1, answer, o.localOk)
          case None => Called(pc1, None)
          case Some(pc2) => Called(pc2, Some(answer))
  }

  /**
   `setRemoteAnswer(ans)`: normalise the answer and apply it remotely, but
   only when the connection is not stable; in stable it is skipped with a
   warning. Failures are swallowed and leave the connection unchanged.
   */
  function SetRemoteAnswer(pc: PeerConnection, ans: Wire, parse: string -> Option<Wire>, remoteOk: bool): (r: PeerConnection)
    ensures pc.sig == Stable ==> r == pc
    ensures pc.sig == HaveLocalOffer && Decoded(ans, parse).Some? && Decoded(ans, parse).value.kind == Answer && remoteOk ==>
              r.sig == Stable && r.remote == Decoded(ans, parse) && r.local == pc.local
    ensures r != pc ==>
              && pc.sig != Stable
              && r.remote == Decoded(ans, parse)
              && r.local == pc.local && r.senders == pc.senders && r.candidates == pc.candidates
    // a rejected `setRemoteDescription`, a failed `JSON.parse` or a non-description leaves the connection unchanged
    ensures !remoteOk || Decoded(ans, parse).None? ==> r == pc
    // otherwise, outside stable, exactly the JSEP transition happens when it is legal
    ensures pc.sig != Stable && remoteOk && Decoded(ans, parse).Some? ==>
              r == (match RemoteTransition(pc.sig, Decoded(ans, parse).value.kind)
                    case Some(next) => pc.(sig := next, remote := Decoded(ans, parse))
                    case None => pc)
    ensures Consistent(pc) ==> Consistent(r)
  {
    match Normalise(ans, parse)
    case None => pc
    case Some(parsed) =>
      if pc.sig != Stable then
        match AsDescription(parsed)
        case None => pc
        case Some(d) =>
          match SetRemote(pc, d, remoteOk)
          case None => pc
          case Some(pc') => pc'
      else
        pc
  }

  /** The senders `sendStream(stream)` adds: one per track of the stream, in the stream's order. */
  function SendersOf(stream: MediaStream): (r: seq<Sender>)
    ensures |r| == |stream.tracks|
    ensures forall i :: 0 <= i < |r| ==> r[i] == Sender(stream.tracks[i], stream.id)
  {
    seq(|stream.tracks|, i requires 0 <= i < |stream.tracks| => Sender(stream.tracks[i], stream.id))
  }

  /** `sendStream(stream)`: `addTrack(track, stream)` for every track of the stream, in order. */
  method SendStream(pc: PeerConnection, stream: MediaStream) returns (r: PeerConnection)
    ensures r.senders == pc.senders + SendersOf(stream)
    ensures r.sig == pc.sig && r.local == pc.local && r.remote == pc.remote && r.candidates == pc.candidates
  {
    r := pc;
    var tracks := stream.tracks;
    var i := 0;
    while i < |tracks|
      invariant 0 <= i <= |tracks|
      invariant r.senders == pc.senders + SendersOf(stream)[..i]
      invariant r.sig == pc.sig && r.local == pc.local && r.remote == pc.remote && r.candidates == pc.candidates
    {
      r := AddTrack(r, tracks[i], stream);
      assert SendersOf(stream)[..i + 1] == SendersOf(stream)[..i] + [Sender(tracks[i], stream.id)];
      i := i + 1;
    }
    assert SendersOf(stream)[..i] == SendersOf(stream);
  }

  /** A "track" event: the first stream it carries, if any, replaces the remote stream. */
  function OnTrack(p: Provider, streams: seq<MediaStream>): (r: Provider)
    ensures r.pc == p.pc
    ensures |streams| > 0 ==> r.remoteStream == Some(streams[0])
    ensures |streams| == 0 ==> r == p
  {
    if |streams| > 0 then p.(remoteStream := Some(streams[0])) else p
  }

  /** `addIceCandidate(c)`: apply a remote candidate; a rejection is logged and leaves the connection as it was. */
  function AddIceCandidate(pc: PeerConnection, c: Candidate, ok: bool): (r: PeerConnection)
    ensures ok && pc.remote.Some? ==> r.candidates == pc.candidates + [c]
    ensures !(ok && pc.remote.Some?) ==> r == pc
    ensures r.(candidates := pc.candidates) == pc
  {
    match AddCandidate(pc, c, ok)
    case None => pc
    case Some(pc') => pc'
  }
}

/** Properties relating several peer-provider calls. */
module PeerFacts {
  import opened Js
  import opened Rtc
  import opened Protocol
  import opened Peer

  /** A JSON string that parses to a description is handled exactly like that description. */
  lemma SerializedAnswerIsNormalised(pc: PeerConnection, json: string, d: Description, parse: string -> Option<Wire>, remoteOk: bool)
    requires parse(json) == Some(Structured(d))
    ensures SetRemoteAnswer(pc, Serialized(json), parse, remoteOk) == SetRemoteAnswer(pc, Structured(d), parse, remoteOk)
  {
  }

  /** The same holds for an offer passed to `createAnswer`. */
  lemma SerializedOfferIsNormalised(pc: PeerConnection, json: string, d: Description, parse: string -> Option<Wire>, o: AnswerOutcome)
    requires parse(json) == Some(Structured(d))
    ensures CreateAnswer(pc, Serialized(json), parse, o) == CreateAnswer(pc, Structured(d), parse, o)
  {
  }

  /**
   `setRemoteAnswer` is idempotent: delivering the same answer twice (with the
   same browser behaviour) leaves the connection as delivering it once.
   */
  lemma SetRemoteAnswerIdempotent(pc: PeerConnection, ans: Wire, parse: string -> Option<Wire>, remoteOk: bool)
    ensures var once := SetRemoteAnswer(pc, ans, parse, remoteOk);
            SetRemoteAnswer(once, ans, parse, remoteOk) == once
  {
  }

  /**
   What the receiving side makes of an emitted offer or answer: exactly the
   description the sender resolved to, and nothing when it resolved to nothing.
   */
  lemma EmittedRoundTrip(d: Option<Description>, parse: string -> Option<Wire>)
    ensures Decoded(Emitted(d), parse) == d
  {
  }

  /** The remote stream after a run of "track" events: the first stream of the last event that carried one. */
  function LastStream(initial: Option<MediaStream>, events: seq<seq<MediaStream>>): Option<MediaStream>
    decreases |events|
  {
    if |events| == 0 then initial
    else if |events[|events| - 1]| > 0 then Some(events[|events| - 1][0])
    else LastStream(initial, events[..|events| - 1])
  }

  /** Deliver "track" events one after the other. */
  function OnTracks(p: Provider, events: seq<seq<MediaStream>>): Provider
    decreases |events|
  {
    if |events| == 0 then p else OnTracks(OnTrack(p, events[0]), events[1..])
  }

  /** Last write wins: the remote stream after any run of track events is given by `LastStream`. */
  lemma {:induction false} TrackLastWriteWins(p: Provider, events: seq<seq<MediaStream>>)
    ensures OnTracks(p, events).remoteStream == LastStream(p.remoteStream, events)
    ensures OnTracks(p, events).pc == p.pc
    decreases |events|
  {
    if |events| > 0 {
      var p1 := OnTrack(p, events[0]);
      TrackLastWriteWins(p1, events[1..]);
      LastStreamShift(p.remoteStream, events);
    }
  }

  /** `LastStream` read from the front: handle the first event, then the rest. */
  lemma {:induction false} LastStreamShift(initial: Option<MediaStream>, events: seq<seq<MediaStream>>)
    requires |events| > 0
    ensures LastStream(initial, events) ==
            LastStream(if |events[0]| > 0 then Some(events[0][0]) else initial, events[1..])
    decreases |events|
  {
    var n := |events|;
    var head := if |events[0]| > 0 then Some(events[0][0]) else initial;
    if n == 1 {
      assert events[1..] == [];
      assert events[..n - 1] == [];
    } else if |events[n - 1]| == 0 {
      assert events[..n - 1][0] == events[0];
      assert events[..n - 1][1..] == events[1..][..|events[1..]| - 1];
      LastStreamShift(initial, events[..n - 1]);
    }
  }
}
