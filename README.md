# Room card bookkeeping

A model of the state kept by the room card of the EduHeaven web client
(`Client/src/components/session/RoomCard.jsx`). The card shows one chat room and
lets the user join it or ask to join it, cancel a pending request, pin or unpin
it on the local home list, and leave it. The model has three parts:

- **Pinned rooms** (`PinnedRooms`). The list stored under the browser key
  `pinnedRooms` is a `seq<Room>` keyed by room id. Three functions cover it:
  `HasId` is the `some` membership test, `WithoutId` is the unpin `filter`, and
  `PinInto` is "append if absent". Lemmas show that both updates keep ids unique,
  that both are idempotent, and that unpinning keeps the order of the entries it
  keeps.
- **Join status** (`JoinFlow`). `null`, `"member"`, `"pending"` and `"none"`
  become `Unknown`, `Member`, `Pending` and `NotMember`. `Join` and `Cancel` are
  the reference transitions of the two handlers. The success or failure of the
  server call is a boolean.
- **Join button** (`JoinButton`). The label table over `isJoinedRoom`, the
  room's privacy and the status, the handler each label is wired to, and how a
  click moves the label.

`RoomCard.Card` is a class that holds the card's state cells (`isPinned`,
`joinStatus`, `showLeaveModal`) and its `loading` prop. It also refers to a
`RoomCard.LocalStorage` object shared by every card on the page. Each handler is
a method. Pin, unpin, join, cancel request and confirm leave return at once
while `loading` is set. Opening and cancelling the leave modal have no such
guard, as in the source. Join and cancel request are proved against the
reference functions above, and pin and unpin against `PinInto` and `WithoutId`.
The leave methods are specified directly by their contracts. The network is
replaced by a `serverOk` parameter; navigation and toasts become an outcome
value the method returns. The card's dropdown menu (`Card.Menu`) and join button
(`Card.Button`) are functions of the card's state. Local storage is a separate
object, not a copy inside the card, so one card's `isPinned` can go stale when
another card changes the store. The client method `RoomCard.TwoCardsShareStore`
shows this.

Three behaviours of the source are easy to misread, and the model follows the
source:
- `Cancel` sets the status to `"none"` from any status, not only from `"pending"`.
- Pinning a room whose id is already stored does not set `isPinned` (`Card.Pin`
  keeps the old flag).
- Polling does not stop for good on a 404 (see "Left out").

## Model

| member | source | states |
|---|---|---|
| `PinnedRooms.HasId` | Client/src/components/session/RoomCard.jsx:44-46 | true exactly when some entry of the list carries the id |
| `PinnedRooms.WithoutId` | Client/src/components/session/RoomCard.jsx:159 | no entry with the id remains; every kept entry comes from the old list (as a sub-multiset); the length drops by the number of entries with that id |
| `PinnedRooms.WithoutIdKeepsOthers` | Client/src/components/session/RoomCard.jsx:159 | every entry with another id is kept, exactly as many times as it occurred |
| `PinnedRooms.WithoutIdAppend` | Client/src/components/session/RoomCard.jsx:159 | the filter distributes over concatenation, so the kept entries keep their relative order |
| `PinnedRooms.WithoutIdIsSubsequence` | Client/src/components/session/RoomCard.jsx:159 | the unpinned list is a subsequence of the old one |
| `PinnedRooms.WithoutAbsentId` | Client/src/components/session/RoomCard.jsx:159 | unpinning an id that is not stored leaves the list unchanged |
| `PinnedRooms.UnpinIdempotent` | Client/src/components/session/RoomCard.jsx:159 | unpinning twice equals unpinning once |
| `PinnedRooms.WithoutIdKeepsUnique` | Client/src/components/session/RoomCard.jsx:159 | a list with unique ids still has unique ids after unpinning |
| `PinnedRooms.PinInto` | Client/src/components/session/RoomCard.jsx:140-147 | afterwards the id is stored; earlier entries are unchanged; the list grows by one, with the room at the end, exactly when the id was absent |
| `PinnedRooms.PinIntoKeepsUnique` | Client/src/components/session/RoomCard.jsx:142-145 | a list with unique ids still has unique ids after pinning |
| `PinnedRooms.PinIntoIdempotent` | Client/src/components/session/RoomCard.jsx:142-143 | pinning twice equals pinning once |
| `PinnedRooms.PinTwiceOneEntry` | Client/src/components/session/RoomCard.jsx:142-145 | when the room's id is stored at most once, pinning twice leaves exactly one entry with that id |
| `PinnedRooms.UniquePinTwiceOneEntry` | Client/src/components/session/RoomCard.jsx:142-145 | starting from unique ids, pinning twice leaves exactly one entry with the room's id |
| `JoinFlow.Join` | Client/src/components/session/RoomCard.jsx:100-124 | success on a public room gives member and navigates in; success on a private room the user is a member of keeps member and enters; success on a private room with null/none gives pending; pending or member on a private room is kept; pending makes no call; a failed call keeps the status and reports failure; member is reached only from member or a successful public join |
| `JoinFlow.Cancel` | Client/src/components/session/RoomCard.jsx:126-135 | success gives none whatever the status was; failure keeps the status; it never produces member or pending from anything else |
| `JoinFlow.RequestThenCancel` | Client/src/components/session/RoomCard.jsx:103-135 | on a private room, a successful request gives pending and a successful cancel then gives none |
| `JoinFlow.RequestThenJoinAgain` | Client/src/components/session/RoomCard.jsx:108-114 | after a successful request, joining again makes no call and only shows the pending notice |
| `JoinButton.Choose` | Client/src/components/session/RoomCard.jsx:293-319 | Enter Room iff joined-list or member; Cancel Request iff not joined-list, private and pending; Request Join iff not joined-list, private and neither member nor pending; Join iff not joined-list, public and not member |
| `JoinButton.HandlerOf` | Client/src/components/session/RoomCard.jsx:293-319 | only Cancel Request runs the cancel handler; every other label runs the join handler |
| `JoinButton.Click` | Client/src/components/session/RoomCard.jsx:293-319 | clicking the shown button runs its handler: a failed call keeps the status; member is reached only from member or a successful public join; a successful Cancel Request gives none; a successful Request Join gives pending and a successful Join gives member |
| `JoinButton.ClickMovesButton` | Client/src/components/session/RoomCard.jsx:293-319 | a successful click outside the joined list moves Request Join to Cancel Request, Cancel Request to Request Join and Join to Enter Room; a failed click, or any click on a joined-list card, keeps the label |
| `JoinButton.JoinedPrivateEnterMayRequest` | Client/src/components/session/RoomCard.jsx:293-296 | on a joined-list private room with status null or none the label is Enter Room, yet the click sends a join request and sets pending |
| `RoomCard.LocalStorage.constructor` | Client/src/components/session/RoomCard.jsx:44 | the shared store holds the given `pinnedRooms` value; every card reads and writes this one object |
| `RoomCard.Card.constructor` | Client/src/components/session/RoomCard.jsx:35-38 | a mounted card starts unpinned, with status null and the leave modal hidden |
| `RoomCard.Card.SetLoading` | Client/src/components/session/RoomCard.jsx:30 | a re-render replaces the `loading` prop |
| `RoomCard.Card.LoadPinnedState` | Client/src/components/session/RoomCard.jsx:42-47 | on a readable store the flag is true iff some stored entry has the room's id, so flag and store agree; an unreadable store fails and leaves the flag unchanged |
| `RoomCard.Card.Pin` | Client/src/components/session/RoomCard.jsx:137-153 | ignored while loading; otherwise the store becomes the append-if-absent list and the flag is set only when the room was appended; an unreadable store is reset to this room alone and the flag set; unique ids and flag/store agreement are preserved; from unique ids exactly one entry carries the room's id afterwards |
| `RoomCard.Card.Unpin` | Client/src/components/session/RoomCard.jsx:155-166 | ignored while loading; on a readable store every entry with the id is removed, the rest keep their order and the flag is cleared; an unreadable store changes nothing; unique ids are preserved |
| `RoomCard.Card.Join` | Client/src/components/session/RoomCard.jsx:100-124 | ignored while loading; otherwise the new status and the outcome are those of `JoinFlow.Join` applied to the old status |
| `RoomCard.Card.CancelRequest` | Client/src/components/session/RoomCard.jsx:126-135 | ignored while loading; otherwise the new status is `JoinFlow.Cancel` of the old one, and the outcome says whether the call succeeded |
| `RoomCard.Card.OpenLeaveModal` | Client/src/components/session/RoomCard.jsx:177 | shows the leave modal, with no loading guard |
| `RoomCard.Card.CancelLeave` | Client/src/components/session/RoomCard.jsx:191 | hides the leave modal |
| `RoomCard.Card.ConfirmLeave` | Client/src/components/session/RoomCard.jsx:179-189 | ignored while loading; success closes the modal and notifies the parent iff it supplied `onLeaveRoom`; failure keeps the modal as it was |
| `RoomCard.Card.Menu` | Client/src/components/session/RoomCard.jsx:243-278 | no menu while loading; otherwise Pin to home iff unpinned, Unpin from home iff pinned, then Copy Link, Leave Room iff the card is from the joined list, Delete iff an `onDelete` callback is given |
| `RoomCard.Card.Button` | Client/src/components/session/RoomCard.jsx:193-319 | no button while loading (the skeleton is shown); otherwise the label of `JoinButton.Choose` for the card's state |

## Left out

- Join-status loading and polling (lines 49-98): these use timers, async responses and a visibility-change listener, so they involve concurrency and I/O. Statuses that arrive from the server are not modelled as events. Instead, the join and button lemmas quantify over every status. Note what the code does here. A 404 clears the interval only when `onRoomNotFound` is given and the effect is not cancelled (lines 78-80). The visibility listener is removed only on unmount, so fetching goes on after a 404 (lines 88-96). `onRoomNotFound` can fire from both the one-shot effect and the poller (lines 57-58, 78-79). Polling therefore does not stop for good, and the callback can fire more than once.
- Each handler is one atomic step. Between the `await` and its continuation, a poll may change the status or the parent may change `loading`; that interleaving is not modelled.
- Copy link (lines 168-175): clipboard access only; it has no state.
- Toasts and navigation are not performed. They appear only as the outcome values that the methods return.
- The info popup, the skeleton markup and the header (lines 193-242, 279-290, 321-395): presentation only. The delete item only calls the parent's `onDelete`, so it is not modelled beyond its place in `Card.Menu`.
- `Card.Menu` records which menu items are offered, but `Card.Pin`, `Card.Unpin` and `Card.OpenLeaveModal` can be called in any state. The model does not tie a handler call to its menu item being on screen, for example Pin only while `!isPinned` (lines 250-260) or Leave Room only while `isJoinedRoom` (line 265).
- JSON encoding: stringify followed by parse is taken to give back the same room records. `Corrupt` stands for stored text on which `JSON.parse`, `some` or `filter` throws: text that is not JSON, or JSON that is not an array. A JSON array whose entries are not room records, such as `[1,2]`, is read normally by the source; the model does not cover such arrays. The model does not cover `setItem` throwing (for example on a full quota), or a TypeError raised inside the `try` blocks.
- The `room` prop is always present. The `if (!room)` early return on line 43 is not modelled.
- `Client/src/Auth/Signout.jsx` is not part of this model: it only makes a logout POST, removes storage keys and navigates.
