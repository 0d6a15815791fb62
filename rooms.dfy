/** The records a room card displays and the client-side join status. */
module Rooms {

  datatype Option<+T> = None | Some(value: T)

  /** A member or owner summary as the room service returns it. */
  datatype UserSummary = UserSummary(
    id: string,
    username: string,
    bio: string,
    profilePicture: string)

  /** A room record. `id` is the `_id` key that pinned entries are compared by. */
  datatype Room = Room(
    id: string,
    name: string,
    isPrivate: bool,
    category: string,
    description: string,
    createdBy: Option<UserSummary>,
    members: seq<UserSummary>)

  /** The card's `joinStatus` cell: `null` (not loaded, or the load failed),
      `"member"`, `"pending"` or `"none"`. */
  datatype JoinStatus = Unknown | Member | Pending | NotMember
}
