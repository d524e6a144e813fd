/** The home page's join form: two text fields and a guarded "Enter Room" button. */
module Home {
  import opened Js
  import opened Protocol

  /** What pressing the button does: messages sent, where the app navigates, whether an alert is shown. */
  datatype Outcome = Outcome(out: seq<SignalMsg>, navigateTo: Option<string>, alerted: bool)

  /** The path navigated to for `roomId` (not URL-encoded). */
  function RoomPath(roomId: string): (p: string)
    ensures |p| == 6 + |roomId| && p[..6] == "/room/" && p[6..] == roomId
  {
    "/room/" + roomId
  }

  /**
   `handleJoinRoom`: with either field empty, alert and do nothing else;
   otherwise send one "join-room" and go to the room's page.
   */
  function HandleJoinRoom(email: string, roomId: string): (r: Outcome)
    ensures !Truthy(email) || !Truthy(roomId) ==> r.out == [] && r.navigateTo == None && r.alerted
    ensures Truthy(email) && Truthy(roomId) ==>
              && r.out == [JoinRoom(roomId, email)]
              && r.navigateTo == Some(RoomPath(roomId))
              && !r.alerted
  {
    if email == "" || roomId == "" then Outcome([], None, true)
    else Outcome([JoinRoom(roomId, email)], Some(RoomPath(roomId)), false)
  }

  /** The button's `disabled` attribute. */
  predicate ButtonDisabled(email: string, roomId: string) {
    !Truthy(email) || !Truthy(roomId)
  }

  /** The button is disabled exactly when pressing it would send nothing and navigate nowhere. */
  lemma DisabledIffRejected(email: string, roomId: string)
    ensures ButtonDisabled(email, roomId) <==> HandleJoinRoom(email, roomId).out == []
    ensures ButtonDisabled(email, roomId) <==> HandleJoinRoom(email, roomId).navigateTo.None?
  {
  }

  /** Every join the form sends carries a non-empty email and room, and the path it navigates to names that room. */
  lemma SentJoinsAreFilled(email: string, roomId: string)
    ensures forall m :: m in HandleJoinRoom(email, roomId).out ==>
              m.JoinRoom? && Truthy(m.emailId) && Truthy(m.roomId) && HandleJoinRoom(email, roomId).navigateTo == Some(RoomPath(m.roomId))
  {
  }
}
