/** The join button's decision table: which label the card shows and which
    handler a click runs. */
module JoinButton {
  import opened Rooms
  import JoinFlow

  datatype Label = EnterRoom | CancelRequest | RequestJoin | JoinLabel

  datatype Handler = OnJoin | OnCancelRequest

  /** The nested choice over `isJoinedRoom`, the room's privacy and the join status. */
  function Choose(isJoinedRoom: bool, isPrivate: bool, status: JoinStatus): (b: Label)
    ensures b == EnterRoom <==> isJoinedRoom || status == Member
    ensures b == CancelRequest <==> !isJoinedRoom && isPrivate && status == Pending
    ensures b == RequestJoin <==> !isJoinedRoom && isPrivate && status != Member && status != Pending
    ensures b == JoinLabel <==> !isJoinedRoom && !isPrivate && status != Member
  {
    if isJoinedRoom then EnterRoom
    else if isPrivate then
      if status == Member then EnterRoom
      else if status == Pending then CancelRequest
      else RequestJoin
    else if status == Member then EnterRoom
    else JoinLabel
  }

  /** Only the Cancel Request button is wired to the cancel handler. */
  function HandlerOf(b: Label): (h: Handler)
    ensures h == OnCancelRequest <==> b == CancelRequest
  {
    if b == CancelRequest then OnCancelRequest else OnJoin
  }

  /** The status after clicking the shown button on a card that is not loading. */
  function Click(isJoinedRoom: bool, isPrivate: bool, status: JoinStatus, serverOk: bool): (r: JoinStatus)
    // a failed call, or the pending notice that makes none, keeps the status
    ensures !serverOk ==> r == status
    // membership is only ever shown after a successful public join
    ensures r == Member ==> status == Member || (serverOk && !isPrivate)
    // the Cancel Request button, when it succeeds, returns the room to "none"
    ensures Choose(isJoinedRoom, isPrivate, status) == CancelRequest && serverOk ==> r == NotMember
    // a successful Request Join or Join click leaves the user pending or a member
    ensures Choose(isJoinedRoom, isPrivate, status) in {RequestJoin, JoinLabel} && serverOk ==>
      r == (if isPrivate then Pending else Member)
  {
    match HandlerOf(Choose(isJoinedRoom, isPrivate, status))
    case OnJoin => JoinFlow.Join(isPrivate, status, serverOk).status
    case OnCancelRequest => JoinFlow.Cancel(status, serverOk)
  }

  /** The label a successful click of `b` leads to on a card that is not in the joined list. */
  function NextLabel(b: Label): Label
  {
    match b
    case RequestJoin => CancelRequest
    case CancelRequest => RequestJoin
    case JoinLabel => EnterRoom
    case EnterRoom => EnterRoom
  }

  /** A successful click moves the button along Request Join -> Cancel Request -> Request Join
      and Join -> Enter Room; a failed click leaves the button as it was. */
  lemma ClickMovesButton(isJoinedRoom: bool, isPrivate: bool, status: JoinStatus, serverOk: bool)
    ensures var b := Choose(isJoinedRoom, isPrivate, status);
            var b' := Choose(isJoinedRoom, isPrivate, Click(isJoinedRoom, isPrivate, status, serverOk));
            b' == if serverOk && !isJoinedRoom then NextLabel(b) else b
  {
  }

  /** On a room from the joined list the button always reads Enter Room, yet for a
      private room whose status is still null or "none" the click sends a join
      request instead of entering. */
  lemma JoinedPrivateEnterMayRequest(status: JoinStatus)
    requires JoinFlow.RequestsJoin(status)
    ensures Choose(true, true, status) == EnterRoom
    ensures JoinFlow.Join(true, status, true) == JoinFlow.JoinStep(Pending, JoinFlow.RequestSent)
  {
  }
}
