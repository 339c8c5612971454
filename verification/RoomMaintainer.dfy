/**
 The room administrator of the messenger: rooms with their members, and the observers of both.
 */
module RoomMaintainer {
  import opened Common
  import opened RoomSteps
  import opened RoomStreams

  /** A member of a room; `heard` is what its callback was called with since it was set. */
  class RoomImpl {
    const roomId: string
    const userId: string
    var callback: bool
    ghost var briefed: bool
    ghost var prior: seq<Talk>
    ghost var heard: seq<Talk>

    constructor (roomId: string, userId: string)
      ensures Value() == Member(roomId, userId, false, false, [], [])
    {
      this.roomId, this.userId, callback := roomId, userId, false;
      briefed, prior, heard := false, [], [];
    }

    ghost function Value(): Member
      reads this
    {
      Member(roomId, userId, callback, briefed, prior, heard)
    }

    method UserJoined(userId: string)
      modifies this`heard
      ensures Value() == Hear(old(Value()), Joined(userId))
    {
      if callback { heard := heard + [Joined(userId)]; }
    }

    method UserLeft(userId: string)
      modifies this`heard
      ensures Value() == Hear(old(Value()), Left(userId))
    {
      if callback { heard := heard + [Left(userId)]; }
    }

    /** The locked part of SetCallback. */
    method Install(callback: bool)
      modifies this
      ensures Value() == old(Value()).(listening := callback, briefed := false, prior := [], heard := [])
    {
      this.callback := callback;
      briefed, prior, heard := false, [], [];
    }
  }

  ghost function Values(table: seq<RoomImpl>): (v: seq<Member>)
    reads table
    ensures |v| == |table|
  {
    seq(|table|, i requires 0 <= i < |table| reads table => table[i].Value())
  }

  predicate ListOk(ids: seq<nat>, n: nat) {
    Distinct(ids) && forall k :: 0 <= k < |ids| ==> ids[k] < n
  }

  lemma TellOneMore(members: seq<Member>, ids: seq<nat>, i: nat, t: Talk)
    requires ListOk(ids, |members|) && i < |ids|
    ensures Tell(members, ids[..i + 1], t)
         == Tell(members, ids[..i], t)[ids[i] := Hear(Tell(members, ids[..i], t)[ids[i]], t)]
  {
    assert ids[..i + 1] == ids[..i] + [ids[i]];
    assert forall id :: id in ids[..i + 1] <==> id in ids[..i] || id == ids[i];
  }

  lemma AnnounceOneMore(told: map<nat, seq<RoomNote>>, observers: seq<nat>, i: nat, n: RoomNote)
    requires Distinct(observers) && i < |observers| && observers[i] in told
    ensures Announce(told, observers[..i + 1], n)
         == Announce(told, observers[..i], n)[observers[i] := told[observers[i]] + [n]]
    ensures Announce(told, observers[..i], n)[observers[i]] == told[observers[i]]
  {
    assert observers[..i + 1] == observers[..i] + [observers[i]];
    assert forall o :: o in observers[..i + 1] <==> o in observers[..i] || o == observers[i];
  }

  class RoomMaintainer {
    var rooms: map<string, seq<nat>>
    var table: seq<RoomImpl>
    var observers: seq<nat>
    var told: map<nat, seq<RoomNote>>

    ghost function View(): Hall
      reads this, table
    {
      Hall(rooms, Values(table), observers, told)
    }

    ghost predicate Valid()
      reads this
    {
      && Distinct(table) && Distinct(observers)
      && (forall o :: o in observers ==> o in told)
      && (forall room :: room in rooms ==> ListOk(rooms[room], |table|))
    }

    constructor ()
      ensures Valid() && View() == EMPTY && table == []
    {
      rooms, table, observers, told := map[], [], [], map[];
    }

    /** Every listed member is visited and hears that a user joined or left. */
    method Visit(ids: seq<nat>, t: Talk)
      requires Distinct(table) && ListOk(ids, |table|)
      modifies table
      ensures Values(table) == Tell(old(Values(table)), ids, t)
    {
      ghost var before := Values(table);
      for i := 0 to |ids|
        invariant Values(table) == Tell(before, ids[..i], t)
      {
        TellOneMore(before, ids, i, t);
        VisitOne(ids[i], t);
      }
      assert ids[..|ids|] == ids;
    }

    method VisitOne(id: nat, t: Talk)
      requires Distinct(table) && id < |table|
      modifies table[id]
      ensures Values(table) == old(Values(table))[id := Hear(old(Values(table))[id], t)]
    {
      match t
      case Joined(user) => table[id].UserJoined(user);
      case Left(user) => table[id].UserLeft(user);
    }

    /** Every observer is told of a room. */
    method TellObservers(n: RoomNote)
      requires Distinct(observers) && forall o :: o in observers ==> o in told
      modifies this`told
      ensures told == Announce(old(told), observers, n)
    {
      ghost var before := told;
      for i := 0 to |observers|
        invariant told == Announce(before, observers[..i], n)
      {
        AnnounceOneMore(before, observers, i, n);
        told := told[observers[i] := told[observers[i]] + [n]];
      }
      assert observers[..|observers|] == observers;
    }

    method FindUser(ids: seq<nat>, user: string) returns (found: bool)
      requires ListOk(ids, |table|)
      ensures found == HasUser(View(), ids, user)
    {
      found := false;
      for i := 0 to |ids|
        invariant !found
        invariant forall k :: 0 <= k < i ==> Values(table)[ids[k]].user != user
      {
        if table[ids[i]].userId == user { return true; }
      }
    }

    /** A room that is not there yet is opened and told of. */
    method OpenRoom(roomId: string)
      requires Valid()
      modifies this`rooms, this`told
      ensures Valid() && View() == Opened(old(View()), roomId)
    {
      if roomId !in rooms {
        rooms := rooms[roomId := []];
        TellObservers(Created(roomId));
      }
    }

    /** A new member is listed, and every member hears of it. */
    method AddMember(roomId: string, userId: string) returns (client: RoomImpl)
      requires Valid() && roomId in rooms
      modifies this`rooms, this`table, table
      ensures Valid() && View() == Enter(old(View()), roomId, userId)
      ensures fresh(client) && table == old(table) + [client]
    {
      client := new RoomImpl(roomId, userId);
      ghost var before := Values(table);
      var ids := rooms[roomId] + [|table|];
      rooms := rooms[roomId := ids];
      table := table + [client];
      assert Values(table) == before + [Member(roomId, userId, false, false, [], [])];
      Visit(ids, Joined(userId));
    }

    /** The number of the new member, if there was none of the same name in the room. */
    method Join(roomId: string, userId: string) returns (joined: bool, id: nat)
      requires Valid()
      modifies this`rooms, this`table, this`told, table
      ensures Valid() && View() == OnJoin(old(View()), roomId, userId)
      ensures joined <==> !HasUser(old(View()), Listed(old(View()), roomId), userId)
      ensures joined ==> |table| == |old(table)| + 1 && id == |old(table)| && fresh(table[id])
      ensures !joined ==> table == old(table)
    {
      id := |table|;
      OpenRoom(roomId);
      var foundUser := FindUser(rooms[roomId], userId);
      joined := !foundUser;
      if joined {
        var client := AddMember(roomId, userId);
      }
    }

    /** A member that is being destroyed leaves its room; the last one to leave closes it. */
    method Exit(id: nat)
      requires Valid() && Live(View(), id)
      modifies this`rooms, this`told, table
      ensures Valid() && View() == OnExit(old(View()), id)
    {
      var roomId, userId := table[id].roomId, table[id].userId;
      var rest := Without(rooms[roomId], id);
      WithoutListOk(rooms[roomId], id, |table|);
      Visit(rest, Left(userId));
      if |rest| == 0 {
        rooms := rooms - {roomId};
        TellObservers(Destroyed(roomId));
      } else {
        rooms := rooms[roomId := rest];
      }
    }

    /** The first half of a member's SetCallback. */
    method SetCallback(id: nat, callback: bool)
      requires Valid() && id < |table|
      modifies table[id]
      ensures Valid() && View() == OnInstall(old(View()), id, callback)
    {
      table[id].Install(callback);
    }

    /** Its second half: the callback hears who is in the room. */
    method Notify(id: nat)
      requires Valid() && Live(View(), id)
      modifies table[id]
      ensures Valid() && View() == OnNotify(old(View()), id)
    {
      ghost var before := Values(table);
      var ids := rooms[table[id].roomId];
      assert ids[..0] == [] && Hearing(before[id], []) == before[id];
      for i := 0 to |ids|
        invariant table[id].Value() == Hearing(before[id], Roll(before, ids[..i]))
      {
        HearingMore(before[id], before, ids, i);
        table[id].UserJoined(table[ids[i]].userId);
      }
      assert ids[..|ids|] == ids;
      table[id].briefed, table[id].prior := true, before[id].heard;
    }

    /** A new observer is told of the rooms there are, in whatever order they come. */
    method Register(sink: nat) returns (ghost order: seq<string>)
      requires Valid()
      modifies this`observers, this`told
      ensures Valid() && Enumerates(order, rooms.Keys) && View() == OnRegister(old(View()), sink, order)
      ensures sink in observers && (sink !in old(observers) ==> told[sink] == Roster(order))
    {
      if sink in observers {
        order := SomeOrder(rooms.Keys);
      } else {
        order := [];
        observers := observers + [sink];
        var todo := rooms.Keys;
        var calls: seq<RoomNote> := [];
        while todo != {}
          invariant calls == Roster(order) && Distinct(order)
          invariant forall room :: room in rooms.Keys <==> room in order || room in todo
          invariant forall room :: room in order ==> room !in todo
        {
          var room :| room in todo;
          assert (order + [room])[..|order|] == order;
          calls, order, todo := calls + [Created(room)], order + [room], todo - {room};
        }
        assert (set r | r in order) == rooms.Keys;
        told := told[sink := calls];
      }
    }

    method Unregister(sink: nat)
      requires Valid()
      modifies this`observers
      ensures Valid() && View() == OnUnregister(old(View()), sink)
      ensures sink !in observers
    {
      WithoutDistinct(observers, sink);
      observers := Without(observers, sink);
    }
  }

  function Hearing(m: Member, more: seq<Talk>): Member {
    if m.listening then m.(heard := m.heard + more) else m
  }

  lemma {:induction false} SomeOrder(rooms: set<string>) returns (order: seq<string>)
    ensures Enumerates(order, rooms)
    decreases |rooms|
  {
    if rooms == {} {
      order := [];
    } else {
      var room :| room in rooms;
      order := SomeOrder(rooms - {room});
      SetSnoc(order, room);
      assert room !in (set r | r in order);
      order := order + [room];
    }
  }

  lemma HearingMore(m: Member, members: seq<Member>, ids: seq<nat>, i: nat)
    requires i < |ids| && ids[i] < |members|
    ensures Hear(Hearing(m, Roll(members, ids[..i])), Joined(members[ids[i]].user))
         == Hearing(m, Roll(members, ids[..i + 1]))
  {
    assert ids[..i + 1][..i] == ids[..i];
    assert m.heard + Roll(members, ids[..i + 1]) == m.heard + Roll(members, ids[..i]) + [Joined(members[ids[i]].user)];
  }

  lemma WithoutListOk(ids: seq<nat>, id: nat, n: nat)
    requires ListOk(ids, n)
    ensures ListOk(Without(ids, id), n)
  {
    WithoutDistinct(ids, id);
    var rest := Without(ids, id);
    forall k | 0 <= k < |rest| ensures rest[k] < n {
      assert rest[k] in ids;
    }
  }
}
