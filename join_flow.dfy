/** How the join and cancel-request handlers move the card's join status,
    given whether the server call they make succeeds. */
module JoinFlow {
  import opened Rooms

  /** What the join handler shows or does besides updating the status. */
  datatype JoinOutcome =
    | JoinIgnored      // returned early because the card is loading
    | Entering         // private room, already a member: POST join succeeded, navigates in
    | PendingNotice    // private room, request pending: no server call, an info toast
    | RequestSent      // private room: POST request-join succeeded
    | Joining          // public room: POST join succeeded, navigates in
    | JoinFailed       // the server call failed: an error toast

  datatype CancelOutcome = CancelIgnored | Cancelled | CancelFailed

  datatype JoinStep = JoinStep(status: JoinStatus, outcome: JoinOutcome)

  /** The branch a private room takes: the POST join call is made only for a member. */
  predicate RequestsJoin(status: JoinStatus)
  {
    status != Member && status != Pending
  }

  /** The join handler on a card that is not loading. */
  function Join(isPrivate: bool, status: JoinStatus, serverOk: bool): (r: JoinStep)
    // a public room: success makes the user a member
    ensures !isPrivate && serverOk ==> r == JoinStep(Member, Joining)
    // a private room with no membership asked for: success makes the request pending
    ensures isPrivate && RequestsJoin(status) && serverOk ==> r == JoinStep(Pending, RequestSent)
    // a private room the user is a member of: success enters the room
    ensures isPrivate && status == Member && serverOk ==> r == JoinStep(Member, Entering)
    // a private room already pending or joined keeps its status
    ensures isPrivate && !RequestsJoin(status) ==> r.status == status
    // a pending request makes no call, so the server's answer does not matter
    ensures isPrivate && status == Pending ==> r == JoinStep(Pending, PendingNotice)
    // a failed call leaves the status alone and reports the failure
    ensures !serverOk ==> r.status == status
    ensures r.outcome == JoinFailed <==> !serverOk && !(isPrivate && status == Pending)
    // membership is only ever asserted after a successful server response
    ensures r.status == Member ==> status == Member || (serverOk && !isPrivate)
    ensures r.outcome != JoinIgnored
  {
    if isPrivate then
      if status == Member then JoinStep(status, if serverOk then Entering else JoinFailed)
      else if status == Pending then JoinStep(status, PendingNotice)
      else if serverOk then JoinStep(Pending, RequestSent)
      else JoinStep(status, JoinFailed)
    else if serverOk then JoinStep(Member, Joining)
    else JoinStep(status, JoinFailed)
  }

  /** The cancel-request handler on a card that is not loading; it does not look
      at the current status at all. */
  function Cancel(status: JoinStatus, serverOk: bool): (r: JoinStatus)
    ensures serverOk ==> r == NotMember
    ensures !serverOk ==> r == status
    ensures r != Member || status == Member
    ensures r != Pending || status == Pending
  {
    if serverOk then NotMember else status
  }

  /** A join followed by a successful cancel on a private room that had not asked yet
      returns to "none", whatever the status was before. */
  lemma RequestThenCancel(status: JoinStatus)
    requires RequestsJoin(status)
    ensures Join(true, status, true).status == Pending
    ensures Cancel(Join(true, status, true).status, true) == NotMember
  {
  }

  /** Once a request has been sent, pressing join again makes no server call and
      only reports that the request is pending. */
  lemma RequestThenJoinAgain(status: JoinStatus, serverOk: bool)
    requires RequestsJoin(status)
    ensures Join(true, Join(true, status, true).status, serverOk) == JoinStep(Pending, PendingNotice)
  {
  }
}
