# Signalling for two-browser WebRTC calls, in Dafny

This project models the signalling protocol of a small WebRTC peer-to-peer
video app. It has three parts that cooperate over socket.io:

- **The relay server** (`server/index.js`). It holds a registry of two maps,
  email → socket and socket → email, plus room membership. It handles
  `join-room`, `call-user`, `call-accepted`, `ice-candidate` and `disconnect`.
- **The client peer provider** (`client/src/Providers/peer.jsx`). It wraps one
  `RTCPeerConnection`. `createAnswer` and `setRemoteAnswer` guard on the
  signalling state and normalise string payloads with `JSON.parse`.
  `createOffer`, `createAnswer` and `setRemoteAnswer` all swallow every error.
- **The room page** (`client/src/pages/Room.jsx`) and **the home page**
  (`client/src/pages/Home.jsx`). The room page tracks the remote
  participant's email and turns server and connection events into provider
  calls and outbound messages. The home page validates the join form.

Every handler is a pure function from a state and one event to a new state
and the messages it emits. Each `await`ed handler is one atomic step. Browser
calls (`createOffer`, `setLocalDescription`, `getUserMedia`, `JSON.parse`, …)
have their outcomes passed in as parameters.

Files:

- `js.dfy` (`Js`): `Option` for `undefined`-or-value, `Map.get`, and string truthiness.
- `rtc.dfy` (`Rtc`): an abstract `RTCPeerConnection`. Descriptions are applied
  per the offer/answer state machine of section 3.2 of RFC 8829 (JSEP),
  restricted to `stable`, `have-local-offer` and `have-remote-offer`.
- `protocol.dfy` (`Protocol`): the message catalogue. Offer, answer and
  candidate payloads are type parameters, so the server cannot inspect them.
- `server.dfy` (`Server`, `ServerRuns`): the registry, the relay, and properties of runs.
- `peer.dfy` (`Peer`, `PeerFacts`): the provider's wrappers, and properties relating several calls.
- `room.dfy` (`Room`): the session controller.
- `home.dfy` (`Home`): the join form.
- `listeners.dfy` (`Listeners`): subscribe and unsubscribe pairing.
- `scenarios.dfy` (`Scenarios`): client and server composed end to end.

How the server's emits are modelled: one emit is one `Outbound`, addressed to
a set of sockets. A reply to the sender goes to `{s}`. A direct message goes
to `{target}`. A room broadcast goes to the room's members other than the
sender. `Inbox(out, s)` is what socket `s` receives, in order. Contracts about
"who receives what" are stated through `Inbox`.

Quirks of the code that the model keeps:

- The two registry maps are not kept inverse. One socket can join under two
  emails, and then both emails route to it.
- A disconnect deletes the email its socket last registered, even when that
  email has since been registered from another socket.
- `if (email)` means a socket registered under the empty email leaves that
  entry behind on disconnect.
- `call-user` and `call-accepted` never check room membership.
- On `negotiationneeded` the room page always creates and applies an offer.
  It only sends it when a remote email is known.

Behaviour of the code that the model follows as written:

- `createAnswer` in a non-stable state skips only `setRemoteDescription`. It
  then still creates and applies an answer, so from `have-remote-offer` it
  reaches `stable` (see `Peer.CreateAnswer`).
- Renegotiation with no known remote participant still creates and applies
  the offer. That can block a later incoming call (see
  `Scenarios.EarlyNegotiationBlocksCall`).
- A failed `createOffer` and an unreachable call target are only logged.
  Nothing is reported to the caller.
- The client only logs its own ICE candidates. It never sends an
  `ice-candidate` message (see `Room.OnlyCallMessages`).

## Model

| member | source | states |
|---|---|---|
| Server.OnJoinRoom | server/index.js:23-36 | After a join from `s`, the email resolves to `s` and `s` to the email, with every other entry unchanged (last write wins). `s` is added to the room. `s` alone receives exactly one `joined-room`. Every other room member receives exactly one `user-joined{emailId, socketId: s}`. Non-members receive nothing. |
| Server.OnCallUser | server/index.js:38-52 | The registry is unchanged. If the email is registered, its socket alone receives exactly one `incoming-call`. That message carries the sender's registered email (possibly undefined), the offer unchanged, and the sender's socket. If the email is not registered, nothing is emitted. |
| Server.OnCallAccepted | server/index.js:54-66 | The registry is unchanged. If the email is defined and registered, its socket alone receives one `call-accepted` with the answer unchanged, the answerer's email and its socket. Otherwise nothing is emitted. |
| Server.OnIceCandidate | server/index.js:68-76 | The registry is unchanged. Something is emitted iff both the target and the candidate are truthy. Then the socket named by the target alone receives `{from: sender, candidate}`. |
| Server.OnDisconnect | server/index.js:78-84 | The socket leaves the socket → email map, and other sockets keep their entries. If its email is truthy, exactly that email leaves the email → socket map, wherever it pointed. Otherwise that map is unchanged. No other entry changes. Rooms stay as they are. |
| Server.Step | server/index.js:23-84 | Only `join-room` and `disconnect` change the registry. A disconnect emits nothing. No step removes anyone from any room: each room's members after the step include its members before. |
| ServerRuns.StepPreservesWf | server/index.js:17-27 | Each handler preserves the invariant that every socket the maps mention has at some point joined a room (rooms never shrink in this model). |
| ServerRuns.RunPreservesWf | server/index.js:17-84 | That invariant holds after any run of events. |
| ServerRuns.RelaysKeepRegistry | server/index.js:38-76 | Any run of `call-user`, `call-accepted` and `ice-candidate` leaves the registry exactly as it was. |
| ServerRuns.RunInbox | server/index.js:20-85 | What a socket receives over a run is what the first step sends it, followed by what the rest of the run sends it. |
| ServerRuns.OneSocketTwoEmails | server/index.js:24-25 | One socket joining as `a` and then as `b` leaves both emails routed to it, while the socket maps only to `b`. |
| ServerRuns.StaleRouteAfterDisconnect | server/index.js:78-84 | For a non-empty second email `b`: after that socket disconnects, `b` is gone but `a` still routes to the closed socket. |
| ServerRuns.DisconnectEvictsNewerRegistration | server/index.js:82 | Take a non-empty email `a` joining from `s1`, then from `s2`, then `s1` disconnecting. Afterwards `a` is unregistered, although `s2` is still connected and still mapped to `a`. |
| ServerRuns.Reconnect | server/index.js:23-84 | Join from `s1`, disconnect, then join from `s2` leaves the email resolving to `s2`, and `s1` forgotten. |
| Protocol.Emitted | client/src/pages/Room.jsx:44-45 | An offer or answer that the provider resolved to nothing is sent as a missing payload. A resolved one is sent as that description. |
| PeerFacts.EmittedRoundTrip | client/src/Providers/peer.jsx:33-38 | What the receiving provider decodes from an emitted payload is exactly the description the sender resolved to, and nothing when it resolved to nothing. |
| Peer.Normalise | client/src/Providers/peer.jsx:34 | A string payload is passed to `JSON.parse`. Any other payload is used as is. |
| Peer.CreateOffer | client/src/Providers/peer.jsx:21-29 | It resolves to an offer iff creation and local application both succeed (JSEP forbids it in `have-remote-offer`). The offer it returns is the connection's new local description, in `have-local-offer`. On failure it resolves to nothing and the connection is untouched. |
| Peer.CreateAnswer | client/src/Providers/peer.jsx:31-48 | When not stable, the remote description is never touched. In `have-local-offer` nothing changes and nothing is returned. A returned answer is the new local description, and the connection is then `stable`; the exact connection after success is stated for both starting states. From stable, it succeeds iff the payload decodes to an offer and every call succeeds. A failure keeps the remote offer applied (in `have-remote-offer`) only when it started stable and `setRemoteDescription` accepted a decoded offer. Any other failure leaves the connection exactly as it was. |
| Peer.SetRemoteAnswer | client/src/Providers/peer.jsx:50-63 | In `stable` nothing changes. A rejected `setRemoteDescription`, a failed `JSON.parse` or a payload that is not a description leaves the connection exactly as it was. Otherwise, outside `stable`, the connection takes exactly the JSEP transition with the decoded description as the remote one, or stays as it was when JSEP forbids it. In `have-local-offer` an answer that applies makes the connection `stable`. |
| Peer.SendStream | client/src/Providers/peer.jsx:65-70 | The senders grow by exactly one sender per track of the stream, in track order, tagged with the stream. Nothing else changes. |
| Peer.OnTrack | client/src/Providers/peer.jsx:72-77 | A track event with streams sets the remote stream to its first stream. One without streams changes nothing. |
| Peer.AddIceCandidate | client/src/Providers/peer.jsx:94-100 | It never fails outward. The candidate is appended when the call succeeds, which needs a remote description. Otherwise the connection is unchanged. |
| PeerFacts.SerializedAnswerIsNormalised | client/src/Providers/peer.jsx:52 | An answer sent as a JSON string that parses to a description behaves exactly like that description. |
| PeerFacts.SerializedOfferIsNormalised | client/src/Providers/peer.jsx:34 | The same holds for an offer given to `createAnswer`. |
| PeerFacts.SetRemoteAnswerIdempotent | client/src/Providers/peer.jsx:54-59 | Applying the same answer a second time changes nothing, from any starting state. |
| PeerFacts.TrackLastWriteWins | client/src/Providers/peer.jsx:72-77 | After any run of track events, the remote stream is the first stream of the last event that carried one (or the initial one), and the connection is untouched. |
| Room.OnUserJoined | client/src/pages/Room.jsx:39-48 | The remote email becomes the newcomer. Exactly one `call-user` is sent to them, even when the offer failed. The connection is exactly what `createOffer` left, and the offer sent is exactly what it resolved to, so a sent offer is the pending local offer. The offer is missing exactly when creation or application failed, and then the connection is unchanged. |
| Room.OnIncomingCall | client/src/pages/Room.jsx:51-60 | The remote email becomes `from`. Exactly one `call-accepted` goes back to `from`. The connection is exactly what `createAnswer` left, and the answer sent is exactly what it resolved to. A sent answer is the local description of a now-stable connection. In `have-local-offer` the answer is missing and nothing changes. When not stable the remote description is kept. |
| Room.OnCallAccepted | client/src/pages/Room.jsx:63-69 | Nothing is emitted and the remote email is unchanged. Only `setRemoteAnswer` acts, so in `stable` the whole session is unchanged. |
| Room.OnNegotiationNeeded | client/src/pages/Room.jsx:97-107 | An offer is always created and applied. At most one message is sent, and one is sent iff the remote email is truthy. It is a `call-user` addressed to that email, carrying exactly what `createOffer` resolved to, which is the pending local offer. |
| Room.GetUserMediaStream | client/src/pages/Room.jsx:22-36 | A refused capture changes nothing, so `sendStream` is not called. A granted stream is kept, and exactly its tracks are added, in order. The signalling state, both descriptions, the candidates, the remote email and the remote stream stay as they were. |
| Room.Handle | client/src/pages/Room.jsx:39-113 | Each event sends at most one message, and every message names the session's current remote participant. The connection stays consistent with its signalling state. |
| Room.OnlyCallMessages | client/src/Providers/peer.jsx:82-87 | Over any run of events, the client sends only `call-user` and `call-accepted`. Local ICE candidates are never sent. |
| Room.HandleAllConsistent | client/src/Providers/peer.jsx:21-63 | Over any run of events, the connection's descriptions stay consistent with its signalling state. |
| Home.HandleJoinRoom | client/src/pages/Home.jsx:12-22 | With an empty email or room, it alerts, sends nothing and navigates nowhere. Otherwise it sends exactly `join-room{emailId: email, roomId}` and navigates to `/room/` followed by the room id. |
| Home.RoomPath | client/src/pages/Home.jsx:21 | The path is `/room/` with the room id after it, unchanged. |
| Home.DisabledIffRejected | client/src/pages/Home.jsx:13-41 | The button is disabled exactly when pressing it would send nothing, and exactly when it would not navigate. |
| Home.SentJoinsAreFilled | client/src/pages/Home.jsx:12-21 | Every join the form sends has a non-empty email and room, and it navigates to `/room/` followed by that room id. |
| Listeners.RoomCleanupUndoesSubscribe | client/src/pages/Room.jsx:79-89 | Mounting adds exactly the three bindings. Cleanup then restores the socket's subscriptions to exactly what they were before. |
| Listeners.PeerCleanupRestoresListeners | client/src/Providers/peer.jsx:79-92 | The provider's effect adds a `track` listener and installs `onicecandidate`. The room page's effect (client/src/pages/Room.jsx:109-112) adds a `negotiationneeded` listener. The effects are `Listeners.MountPeer`, `CleanupPeer`, `MountNegotiation` and `CleanupNegotiation`. Cleaning up both restores the connection's listeners, but `onicecandidate` stays installed. |
| Scenarios.FormJoinThenDisconnect | client/src/pages/Home.jsx:12-18 | A join sent by the form registers the email at the sender's socket and adds it to the room. The sender is answered with `joined-room`. Because the email is non-empty, the socket's disconnect removes the registration. |
| Scenarios.CallEstablished | client/src/pages/Room.jsx:39-69 | On freshly mounted pages (no media captured yet, no renegotiation), with every browser call succeeding, for `a` then `b` joining a room: `a` alone is told about `b`, and `b` alone gets `joined-room`. The offer and the answer reach the other side unchanged, tagged with the sender. Both connections end `stable`, each holding the other's description. |
| Scenarios.EarlyNegotiationBlocksCall | client/src/pages/Room.jsx:97-107 | Take a page that renegotiates before anyone has called it. Its offer goes nowhere, it answers a later call with nothing, and the caller stays in `have-local-offer`. |

## Left out

- `client/src/Providers/Socket.jsx` and `client/src/App.js` are not part of this model. They hold transport construction, reconnection settings and routing, with no signalling logic.
- Express and HTTP setup, `listen`, `alert` text and every `console` call are I/O.
- Every address is treated as one socket. In socket.io, `io.to(x)` addresses the room named `x`, and each socket also sits in a room named by its own id. So an `ice-candidate` whose target is a room code (server/index.js:69-70) reaches every member of that room. The same aliasing applies at server/index.js:30, 43 and 59 when a room is named like a socket id. The model delivers only to the socket with that id.
- socket.io's automatic removal of a closed socket from its rooms is not modelled. Rooms only grow, and a closed socket still counts as a member.
- Payload fields that a client leaves undefined are not modelled on the server, except the `emailId` of `call-accepted`, which the client can forward as undefined. A missing `targetSocketId` is modelled as the empty string.
- The real `RTCPeerConnection` is not modelled. This covers SDP contents, ICE gathering, DTLS, the STUN servers (client/src/Providers/peer.jsx:9-18), provisional answers, rollback and the closed state. Each call's success is a parameter, and description application follows the JSEP table.
- `getUserMedia` and `JSON.parse` are parameters: the stream or refusal, and the parsed value or the exception.
- SendStream: does not model `addTrack` throwing for a track that already has a sender. Each capture by `getUserMedia` yields fresh tracks, so the page never adds the same track twice.
- The room page never subscribes to the server's `ice-candidate` event and never calls `addIceCandidate`. `Peer.AddIceCandidate` is modelled as the provider offers it.
- Interleavings of concurrent async handlers and glare races are not explored. React's re-rendering is also left out: the negotiation handler reads the session's current `remoteEmailId`, where the code's closure sees the value of the last render. `sendStream` is a new closure on every provider render (client/src/Providers/peer.jsx:65), and the mount effect depends on it (client/src/pages/Room.jsx:36, 92-94). So a re-render, such as the one after the first remote track sets `remoteStream`, captures media again, adds a second set of tracks and triggers `negotiationneeded` again. These repeated captures and the renegotiation they trigger are not modelled.
- Room codes are not URL-encoded when navigating (client/src/pages/Home.jsx:21). A code containing "/" yields a path that does not match the room route and renders the 404 page (client/src/App.js:15-16), though the server has already put the socket in that room. The model stops at the path string.
- JSX rendering, the video elements (client/src/pages/Room.jsx:72-76) and the home page's inputs are UI.
