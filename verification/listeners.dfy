/**
 Event subscriptions made by the room page and the peer provider, and the
 cleanup functions React runs when they unmount. A socket.io emitter keeps a
 list of (event, handler) registrations, so `on` adds one more and
 `off(event, handler)` removes one; a DOM `EventTarget` keeps a set.
 */
module Listeners {

  /** The handler functions the code registers, each a distinct function value. */
  datatype Handler = NewUserJoined | IncomingCall | CallAccepted | Negotiation | TrackEvent

  datatype Binding = Binding(event: string, handler: Handler)

  /** `socket.on(event, handler)` for every binding, in order. */
  function OnAll(ls: multiset<Binding>, bs: seq<Binding>): multiset<Binding>
    decreases |bs|
  {
    if |bs| == 0 then ls else OnAll(ls + multiset{bs[0]}, bs[1..])
  }

  /** `socket.off(event, handler)` for every binding, in order. */
  function OffAll(ls: multiset<Binding>, bs: seq<Binding>): multiset<Binding>
    decreases |bs|
  {
    if |bs| == 0 then ls else OffAll(ls - multiset{bs[0]}, bs[1..])
  }

  lemma {:induction false} OnAllAdds(ls: multiset<Binding>, bs: seq<Binding>)
    ensures OnAll(ls, bs) == ls + multiset(bs)
    decreases |bs|
  {
    if |bs| > 0 {
      OnAllAdds(ls + multiset{bs[0]}, bs[1..]);
      assert bs == [bs[0]] + bs[1..];
      assert multiset(bs) == multiset{bs[0]} + multiset(bs[1..]);
    }
  }

  lemma {:induction false} OffAllRemoves(ls: multiset<Binding>, bs: seq<Binding>)
    ensures OffAll(ls + multiset(bs), bs) == ls
    decreases |bs|
  {
    if |bs| > 0 {
      assert bs == [bs[0]] + bs[1..];
      assert multiset(bs) == multiset{bs[0]} + multiset(bs[1..]);
      assert ls + multiset(bs) - multiset{bs[0]} == ls + multiset(bs[1..]);
      OffAllRemoves(ls, bs[1..]);
    }
  }

  /** The three server events the room page binds while mounted. */
  const RoomBindings: seq<Binding> := [
    Binding("user-joined", NewUserJoined),
    Binding("incoming-call", IncomingCall),
    Binding("call-accepted", CallAccepted)
  ]

  /** Mount then unmount: the socket's subscriptions are exactly what they were before, whatever they were. */
  lemma {:induction false} RoomCleanupUndoesSubscribe(ls: multiset<Binding>)
    ensures OnAll(ls, RoomBindings) == ls + multiset(RoomBindings)
    ensures OffAll(OnAll(ls, RoomBindings), RoomBindings) == ls
  {
    OnAllAdds(ls, RoomBindings);
    OffAllRemoves(ls, RoomBindings);
  }

  /** The connection's hooks: its `EventTarget` listeners and whether `onicecandidate` is set. */
  datatype PeerHooks = PeerHooks(listeners: set<Binding>, onIceCandidate: bool)

  const TrackBinding := Binding("track", TrackEvent)
  const NegotiationBinding := Binding("negotiationneeded", Negotiation)

  /** The peer provider's effect: listen for "track" and install the `onicecandidate` logger. */
  function MountPeer(h: PeerHooks): (r: PeerHooks)
    ensures r.listeners == h.listeners + {TrackBinding} && r.onIceCandidate
  {
    PeerHooks(h.listeners + {TrackBinding}, true)
  }

  /** Its cleanup: the "track" listener goes, the `onicecandidate` property stays. */
  function CleanupPeer(h: PeerHooks): (r: PeerHooks)
    ensures TrackBinding !in r.listeners && r.onIceCandidate == h.onIceCandidate
    ensures r.listeners == h.listeners - {TrackBinding}
  {
    h.(listeners := h.listeners - {TrackBinding})
  }

  /** The room page's renegotiation effect: add the "negotiationneeded" listener; its cleanup removes it. */
  function MountNegotiation(h: PeerHooks): (r: PeerHooks)
    ensures r.listeners == h.listeners + {NegotiationBinding} && r.onIceCandidate == h.onIceCandidate
  {
    h.(listeners := h.listeners + {NegotiationBinding})
  }

  function CleanupNegotiation(h: PeerHooks): (r: PeerHooks)
    ensures r.listeners == h.listeners - {NegotiationBinding} && r.onIceCandidate == h.onIceCandidate
  {
    h.(listeners := h.listeners - {NegotiationBinding})
  }

  /**
   Mounting and then cleaning up both effects restores the connection's
   listeners (when neither was registered before), but leaves
   `onicecandidate` installed.
   */
  lemma PeerCleanupRestoresListeners(h: PeerHooks)
    requires TrackBinding !in h.listeners && NegotiationBinding !in h.listeners
    ensures CleanupNegotiation(CleanupPeer(MountNegotiation(MountPeer(h)))).listeners == h.listeners
    ensures CleanupNegotiation(CleanupPeer(MountNegotiation(MountPeer(h)))).onIceCandidate
  {
  }
}
