/** The pinned-rooms list kept under the `pinnedRooms` storage key: a sequence
    of room snapshots keyed by room id. */
module PinnedRooms {
  import opened Rooms

  /** What `JSON.parse` makes of the stored text: an array of rooms (a missing
      key reads as the empty array), or something that makes the handlers throw. */
  datatype PinStore = Stored(rooms: seq<Room>) | Corrupt

  /** The `some` membership test: does an entry carry this id? */
  function HasId(rooms: seq<Room>, id: string): (r: bool)
    ensures r <==> exists i :: 0 <= i < |rooms| && rooms[i].id == id
  {
    if rooms == [] then false
    else if rooms[0].id == id then true
    else
      var r := HasId(rooms[1..], id);
      assert forall i :: 1 <= i < |rooms| ==> rooms[i] == rooms[1..][i - 1];
      r
  }

  /** Number of entries carrying this id. */
  function CountId(rooms: seq<Room>, id: string): (n: nat)
    ensures n == 0 <==> !HasId(rooms, id)
    ensures n <= |rooms|
  {
    if rooms == [] then 0
    else (if rooms[0].id == id then 1 else 0) + CountId(rooms[1..], id)
  }

  /** No two entries share an id. */
  ghost predicate UniqueIds(rooms: seq<Room>)
  {
    forall i, j :: 0 <= i < j < |rooms| ==> rooms[i].id != rooms[j].id
  }

  /** `r` is `s` with some entries deleted and the rest in their original order. */
  ghost predicate IsSubsequence(r: seq<Room>, s: seq<Room>)
    decreases |s|
  {
    if r == [] then true
    else if s == [] then false
    else (r[0] == s[0] && IsSubsequence(r[1..], s[1..])) || IsSubsequence(r, s[1..])
  }

  /** The unpin `filter`: keep every entry whose id differs. */
  function WithoutId(rooms: seq<Room>, id: string): (r: seq<Room>)
    ensures !HasId(r, id)
    ensures multiset(r) <= multiset(rooms)
    ensures |r| == |rooms| - CountId(rooms, id)
  {
    if rooms == [] then []
    else
      var rest := WithoutId(rooms[1..], id);
      assert rooms == [rooms[0]] + rooms[1..];
      if rooms[0].id == id then rest else [rooms[0]] + rest
  }

  /** The store update of pinning: append the room unless an entry with its id exists. */
  function PinInto(rooms: seq<Room>, room: Room): (r: seq<Room>)
    ensures HasId(r, room.id)
    ensures |rooms| <= |r| <= |rooms| + 1 && r[..|rooms|] == rooms
    ensures |r| == |rooms| + 1 <==> !HasId(rooms, room.id)
    ensures |r| == |rooms| + 1 ==> r[|rooms|] == room
  {
    if HasId(rooms, room.id) then rooms
    else
      assert (rooms + [room])[|rooms|] == room;
      rooms + [room]
  }

  /** Unpinning keeps every entry with another id, as often as it occurred. */
  lemma {:induction false} WithoutIdKeepsOthers(rooms: seq<Room>, id: string, x: Room)
    requires x.id != id
    ensures multiset(WithoutId(rooms, id))[x] == multiset(rooms)[x]
    ensures x in WithoutId(rooms, id) <==> x in rooms
  {
    if rooms != [] {
      assert rooms == [rooms[0]] + rooms[1..];
      WithoutIdKeepsOthers(rooms[1..], id, x);
    }
  }

  lemma {:induction false} CountIdAppend(a: seq<Room>, b: seq<Room>, id: string)
    ensures CountId(a + b, id) == CountId(a, id) + CountId(b, id)
  {
    if a == [] {
      assert a + b == b;
    } else {
      assert (a + b)[0] == a[0] && (a + b)[1..] == a[1..] + b;
      CountIdAppend(a[1..], b, id);
    }
  }

  lemma {:induction false} WithoutIdAppend(a: seq<Room>, b: seq<Room>, id: string)
    ensures WithoutId(a + b, id) == WithoutId(a, id) + WithoutId(b, id)
  {
    if a == [] {
      assert a + b == b;
    } else {
      assert (a + b)[1..] == a[1..] + b;
      WithoutIdAppend(a[1..], b, id);
    }
  }

  lemma {:induction false} UniqueCons(x: Room, t: seq<Room>)
    ensures UniqueIds([x] + t) <==> !HasId(t, x.id) && UniqueIds(t)
  {
    var s := [x] + t;
    assert forall i :: 0 <= i < |t| ==> s[i + 1] == t[i];
    if UniqueIds(s) {
      forall i, j | 0 <= i < j < |t| ensures t[i].id != t[j].id {
        assert s[i + 1] == t[i] && s[j + 1] == t[j];
      }
      forall k | 0 <= k < |t| ensures t[k].id != x.id {
        assert s[0] == x && s[k + 1] == t[k];
      }
    }
    if !HasId(t, x.id) && UniqueIds(t) {
      forall i, j | 0 <= i < j < |s| ensures s[i].id != s[j].id {
        if i == 0 {
          assert s[j] == t[j - 1];
        } else {
          assert s[i] == t[i - 1] && s[j] == t[j - 1];
        }
      }
    }
  }

  /** Unpinning keeps the ids unique. */
  lemma {:induction false} WithoutIdKeepsUnique(rooms: seq<Room>, id: string)
    requires UniqueIds(rooms)
    ensures UniqueIds(WithoutId(rooms, id))
  {
    if rooms != [] {
      assert rooms == [rooms[0]] + rooms[1..];
      UniqueCons(rooms[0], rooms[1..]);
      WithoutIdKeepsUnique(rooms[1..], id);
      if rooms[0].id != id {
        var rest := WithoutId(rooms[1..], id);
        forall i | 0 <= i < |rest| ensures rest[i].id != rooms[0].id {
          assert rest[i] in multiset(rest);
          assert rest[i] in rooms[1..];
        }
        UniqueCons(rooms[0], rest);
      }
    }
  }

  /** Unpinning deletes entries and never reorders the ones it keeps. */
  lemma {:induction false} WithoutIdIsSubsequence(rooms: seq<Room>, id: string)
    ensures IsSubsequence(WithoutId(rooms, id), rooms)
  {
    if rooms != [] {
      WithoutIdIsSubsequence(rooms[1..], id);
      var rest := WithoutId(rooms[1..], id);
      if rooms[0].id == id {
        SubsequenceOfTail(rest, rooms);
      } else {
        assert ([rooms[0]] + rest)[1..] == rest;
      }
    }
  }

  lemma {:induction false} SubsequenceOfTail(r: seq<Room>, s: seq<Room>)
    requires s != [] && IsSubsequence(r, s[1..])
    ensures IsSubsequence(r, s)
  {
  }

  /** Unpinning an id that is not stored leaves the list as it was. */
  lemma {:induction false} WithoutAbsentId(rooms: seq<Room>, id: string)
    requires !HasId(rooms, id)
    ensures WithoutId(rooms, id) == rooms
  {
    if rooms != [] {
      WithoutAbsentId(rooms[1..], id);
      assert rooms == [rooms[0]] + rooms[1..];
    }
  }

  /** Unpinning a second time changes nothing. */
  lemma UnpinIdempotent(rooms: seq<Room>, id: string)
    ensures WithoutId(WithoutId(rooms, id), id) == WithoutId(rooms, id)
  {
    WithoutAbsentId(WithoutId(rooms, id), id);
  }

  /** Pinning keeps the ids unique. */
  lemma PinIntoKeepsUnique(rooms: seq<Room>, room: Room)
    requires UniqueIds(rooms)
    ensures UniqueIds(PinInto(rooms, room))
  {
  }

  /** Pinning a second time changes nothing. */
  lemma PinIntoIdempotent(rooms: seq<Room>, room: Room)
    ensures PinInto(PinInto(rooms, room), room) == PinInto(rooms, room)
  {
  }

  /** When the room's id is stored at most once, pinning leaves exactly one entry
      with that id, however often it is repeated. */
  lemma PinTwiceOneEntry(rooms: seq<Room>, room: Room)
    requires CountId(rooms, room.id) <= 1
    ensures CountId(PinInto(PinInto(rooms, room), room), room.id) == 1
  {
    PinIntoIdempotent(rooms, room);
    if !HasId(rooms, room.id) {
      CountIdAppend(rooms, [room], room.id);
      assert [room][1..] == [];
    }
  }

  lemma {:induction false} UniqueCountAtMostOne(rooms: seq<Room>, id: string)
    requires UniqueIds(rooms)
    ensures CountId(rooms, id) <= 1
  {
    if rooms != [] {
      assert rooms == [rooms[0]] + rooms[1..];
      UniqueCons(rooms[0], rooms[1..]);
      UniqueCountAtMostOne(rooms[1..], id);
    }
  }

  /** On a list with unique ids, pinning twice leaves exactly one entry with the room's id. */
  lemma UniquePinTwiceOneEntry(rooms: seq<Room>, room: Room)
    requires UniqueIds(rooms)
    ensures CountId(PinInto(PinInto(rooms, room), room), room.id) == 1
  {
    UniqueIffCountsAtMostOne(rooms);
    PinTwiceOneEntry(rooms, room);
  }

  /** Unique ids means no id is counted twice, and conversely. */
  lemma UniqueIffCountsAtMostOne(rooms: seq<Room>)
    ensures UniqueIds(rooms) <==> forall id :: CountId(rooms, id) <= 1
  {
    if UniqueIds(rooms) {
      forall id ensures CountId(rooms, id) <= 1 {
        UniqueCountAtMostOne(rooms, id);
      }
    } else {
      var i, j :| 0 <= i < j < |rooms| && rooms[i].id == rooms[j].id;
      var id := rooms[i].id;
      assert rooms == rooms[..j] + rooms[j..];
      CountIdAppend(rooms[..j], rooms[j..], id);
      assert rooms[..j][i].id == id;
      assert rooms[j..][0].id == id;
      assert CountId(rooms, id) >= 2;
    }
  }
}
