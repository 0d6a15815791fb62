/** The room card's own state and its event handlers. Server calls are replaced
    by a `serverOk` parameter telling whether the request succeeded. */
module RoomCard {
  import opened Rooms
  import opened PinnedRooms
  import JoinFlow
  import JoinButton

  /** The browser's local storage, shared by every card on the page; only the
      `pinnedRooms` key is modelled. */
  class LocalStorage {
    var pinnedRooms: PinStore

    constructor (initial: PinStore)
      ensures pinnedRooms == initial
    {
      pinnedRooms := initial;
    }
  }

  datatype PinOutcome = PinIgnored | Pinned | AlreadyPinned | StoreReset

  datatype UnpinOutcome = UnpinIgnored | Unpinned | UnpinFailed

  datatype LeaveOutcome = LeaveIgnored | Left | LeaveFailed

  /** The entries of the card's dropdown menu. */
  datatype MenuItem = PinToHome | UnpinFromHome | CopyLink | LeaveRoom | Delete

  class Card {
    const room: Room
    const isJoinedRoom: bool
    const storage: LocalStorage
    var loading: bool
    var isPinned: bool
    var joinStatus: JoinStatus
    var showLeaveModal: bool

    /** A freshly mounted card, before any effect has run. */
    constructor (room: Room, isJoinedRoom: bool, loading: bool, storage: LocalStorage)
      ensures this.room == room && this.isJoinedRoom == isJoinedRoom
      ensures this.loading == loading && this.storage == storage
      ensures !isPinned && joinStatus == Unknown && !showLeaveModal
    {
      this.room := room;
      this.isJoinedRoom := isJoinedRoom;
      this.loading := loading;
      this.storage := storage;
      isPinned := false;
      joinStatus := Unknown;
      showLeaveModal := false;
    }

    /** The pinned flag agrees with the stored list. */
    ghost predicate PinFlagInSync()
      reads this, storage
    {
      storage.pinnedRooms.Stored? && isPinned == HasId(storage.pinnedRooms.rooms, room.id)
    }

    /** The stored list is readable and keyed uniquely by room id. */
    ghost predicate StoreUnique()
      reads storage
    {
      storage.pinnedRooms.Stored? && UniqueIds(storage.pinnedRooms.rooms)
    }

    /** The parent re-renders the card with a new `loading` prop. */
    method SetLoading(loading: bool)
      modifies this`loading
      ensures this.loading == loading
    {
      this.loading := loading;
    }

    /** The pinned-state effect: reads the stored list and sets the flag by a
        membership test. A store that does not parse makes the effect throw,
        reported here as `ok == false` with the flag untouched. */
    method LoadPinnedState() returns (ok: bool)
      modifies this`isPinned
      ensures ok <==> storage.pinnedRooms.Stored?
      ensures ok ==> (isPinned <==> exists i :: 0 <= i < |storage.pinnedRooms.rooms| &&
                                                storage.pinnedRooms.rooms[i].id == room.id)
      ensures ok ==> PinFlagInSync()
      ensures !ok ==> isPinned == old(isPinned)
    {
      match storage.pinnedRooms
      case Corrupt =>
        ok := false;
      case Stored(rooms) =>
        isPinned := HasId(rooms, room.id);
        ok := true;
    }

    /** The pin handler: appends the room unless an entry with its id is stored;
        a store that does not parse is overwritten with this room alone. */
    method Pin() returns (outcome: PinOutcome)
      modifies this`isPinned, storage`pinnedRooms
      ensures loading ==> outcome == PinIgnored
      ensures loading ==> isPinned == old(isPinned) && storage.pinnedRooms == old(storage.pinnedRooms)
      ensures !loading && old(storage.pinnedRooms).Stored? ==>
        var before := old(storage.pinnedRooms).rooms;
        && storage.pinnedRooms == Stored(PinInto(before, room))
        && (outcome == Pinned <==> !HasId(before, room.id))
        && (outcome == AlreadyPinned <==> HasId(before, room.id))
        && isPinned == (outcome == Pinned || old(isPinned))
      ensures !loading && old(storage.pinnedRooms).Corrupt? ==>
        storage.pinnedRooms == Stored([room]) && isPinned && outcome == StoreReset
      ensures !loading ==> HasId(storage.pinnedRooms.rooms, room.id)
      ensures old(StoreUnique()) ==> StoreUnique()
      ensures old(PinFlagInSync()) && !loading ==> PinFlagInSync() && isPinned
      ensures old(StoreUnique()) && !loading ==> CountId(storage.pinnedRooms.rooms, room.id) == 1
    {
      if loading {
        return PinIgnored;
      }
      match storage.pinnedRooms
      case Corrupt =>
        storage.pinnedRooms := Stored([room]);
        isPinned := true;
        outcome := StoreReset;
      case Stored(arr) =>
        var found := HasId(arr, room.id);
        if !found {
          storage.pinnedRooms := Stored(arr + [room]);
          isPinned := true;
          outcome := Pinned;
        } else {
          outcome := AlreadyPinned;
        }
        if UniqueIds(arr) {
          PinIntoKeepsUnique(arr, room);
          UniquePinTwiceOneEntry(arr, room);
          PinIntoIdempotent(arr, room);
        }
    }

    /** The unpin handler: drops every entry with the room's id; a store that does
        not parse is left as it is and only logged. */
    method Unpin() returns (outcome: UnpinOutcome)
      modifies this`isPinned, storage`pinnedRooms
      ensures loading ==> outcome == UnpinIgnored
      ensures loading || old(storage.pinnedRooms).Corrupt? ==>
        isPinned == old(isPinned) && storage.pinnedRooms == old(storage.pinnedRooms)
      ensures !loading && old(storage.pinnedRooms).Corrupt? ==> outcome == UnpinFailed
      ensures !loading && old(storage.pinnedRooms).Stored? ==>
        var before := old(storage.pinnedRooms).rooms;
        && storage.pinnedRooms == Stored(WithoutId(before, room.id))
        && IsSubsequence(storage.pinnedRooms.rooms, before)
        && !isPinned && outcome == Unpinned
      ensures old(StoreUnique()) ==> StoreUnique()
      ensures old(storage.pinnedRooms).Stored? && !loading ==> PinFlagInSync()
    {
      if loading {
        return UnpinIgnored;
      }
      match storage.pinnedRooms
      case Corrupt =>
        outcome := UnpinFailed;
      case Stored(arr) =>
        storage.pinnedRooms := Stored(WithoutId(arr, room.id));
        isPinned := false;
        outcome := Unpinned;
        WithoutIdIsSubsequence(arr, room.id);
        if UniqueIds(arr) {
          WithoutIdKeepsUnique(arr, room.id);
        }
    }

    /** The join handler. */
    method Join(serverOk: bool) returns (outcome: JoinFlow.JoinOutcome)
      modifies this`joinStatus
      ensures loading ==> outcome == JoinFlow.JoinIgnored && joinStatus == old(joinStatus)
      ensures !loading ==>
        JoinFlow.JoinStep(joinStatus, outcome) == JoinFlow.Join(room.isPrivate, old(joinStatus), serverOk)
    {
      if loading {
        return JoinFlow.JoinIgnored;
      }
      if room.isPrivate {
        if joinStatus == Member {
          outcome := if serverOk then JoinFlow.Entering else JoinFlow.JoinFailed;
        } else if joinStatus == Pending {
          outcome := JoinFlow.PendingNotice;
        } else if serverOk {
          joinStatus := Pending;
          outcome := JoinFlow.RequestSent;
        } else {
          outcome := JoinFlow.JoinFailed;
        }
      } else if serverOk {
        joinStatus := Member;
        outcome := JoinFlow.Joining;
      } else {
        outcome := JoinFlow.JoinFailed;
      }
    }

    /** The cancel-request handler. */
    method CancelRequest(serverOk: bool) returns (outcome: JoinFlow.CancelOutcome)
      modifies this`joinStatus
      ensures loading ==> outcome == JoinFlow.CancelIgnored && joinStatus == old(joinStatus)
      ensures !loading ==> joinStatus == JoinFlow.Cancel(old(joinStatus), serverOk)
      ensures !loading ==> (outcome == JoinFlow.Cancelled <==> serverOk)
      ensures !loading ==> (outcome == JoinFlow.CancelFailed <==> !serverOk)
    {
      if loading {
        return JoinFlow.CancelIgnored;
      }
      if serverOk {
        joinStatus := NotMember;
        outcome := JoinFlow.Cancelled;
      } else {
        outcome := JoinFlow.CancelFailed;
      }
    }

    /** The "Leave Room" menu item opens the confirmation modal, loading or not. */
    method OpenLeaveModal()
      modifies this`showLeaveModal
      ensures showLeaveModal
    {
      showLeaveModal := true;
    }

    /** The modal's cancel button. */
    method CancelLeave()
      modifies this`showLeaveModal
      ensures !showLeaveModal
    {
      showLeaveModal := false;
    }

    /** The modal's confirm button: on success the modal closes and the parent's
        `onLeaveRoom` callback, when given, is told. */
    method ConfirmLeave(serverOk: bool, hasOnLeaveRoom: bool) returns (outcome: LeaveOutcome, notifiesParent: bool)
      modifies this`showLeaveModal
      ensures loading ==> outcome == LeaveIgnored && showLeaveModal == old(showLeaveModal)
      ensures !loading && serverOk ==> outcome == Left && !showLeaveModal
      ensures !loading && !serverOk ==> outcome == LeaveFailed && showLeaveModal == old(showLeaveModal)
      ensures notifiesParent <==> outcome == Left && hasOnLeaveRoom
    {
      if loading {
        return LeaveIgnored, false;
      }
      if serverOk {
        showLeaveModal := false;
        outcome := Left;
        notifiesParent := hasOnLeaveRoom;
      } else {
        outcome := LeaveFailed;
        notifiesParent := false;
      }
    }

    /** The dropdown menu the card renders, in order; none while loading. Pin is
        offered only on an unpinned card, Unpin only on a pinned one, Leave Room
        only on a card from the joined list, Delete only when the parent gives
        an `onDelete` callback. */
    function Menu(hasOnDelete: bool): (m: seq<MenuItem>)
      reads this
      ensures loading ==> m == []
      ensures !loading ==> |m| >= 2 && m[1] == CopyLink
      ensures !loading ==> (m[0] == PinToHome <==> !isPinned) && (m[0] == UnpinFromHome <==> isPinned)
      ensures PinToHome in m <==> !loading && !isPinned
      ensures UnpinFromHome in m <==> !loading && isPinned
      ensures LeaveRoom in m <==> !loading && isJoinedRoom
      ensures Delete in m <==> !loading && hasOnDelete
      ensures CopyLink in m <==> !loading
    {
      if loading then []
      else
        [if isPinned then UnpinFromHome else PinToHome, CopyLink]
        + (if isJoinedRoom then [LeaveRoom] else [])
        + (if hasOnDelete then [Delete] else [])
    }

    /** The join button the card renders; none while loading, when a skeleton is shown. */
    function Button(): (b: Option<JoinButton.Label>)
      reads this
      ensures b.None? <==> loading
      ensures b.Some? ==> b.value == JoinButton.Choose(isJoinedRoom, room.isPrivate, joinStatus)
    {
      if loading then None else Some(JoinButton.Choose(isJoinedRoom, room.isPrivate, joinStatus))
    }
  }

  /** Two cards on one page share the store: pinning on one card is seen by
      another card's next load, and unpinning there removes it again. */
  method TwoCardsShareStore(room: Room, store: seq<Room>)
    requires UniqueIds(store)
  {
    var storage := new LocalStorage(Stored(store));
    var a := new Card(room, false, false, storage);
    var b := new Card(room, false, false, storage);
    var ok := a.LoadPinnedState();
    var _ := a.Pin();
    assert a.isPinned;
    ok := b.LoadPinnedState();
    assert ok && b.isPinned;
    var _ := b.Unpin();
    assert !b.isPinned && !HasId(storage.pinnedRooms.rooms, room.id);
    assert a.isPinned;
    assert a.StoreUnique() && !a.PinFlagInSync();
  }
}
