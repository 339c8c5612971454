/**
 The rooms of the messenger as a state machine: joining, leaving, observing rooms and following
 the other members of a room.
 */
module RoomSteps {
  import opened Common
  import opened RoomStreams
  import StateMachine

  /**
   A member of a room. `heard` is what the callback heard since it was set; `briefed` holds once it
   has been told who is there, and `prior` is what it had heard before it was told that last.
   */
  datatype Member = Member(
    room: string,
    user: string,
    listening: bool,
    briefed: bool,
    prior: seq<Talk>,
    heard: seq<Talk>)

  /** Members are known by number; a room lists its live ones in the order they joined. */
  datatype Hall = Hall(
    rooms: map<string, seq<nat>>,
    members: seq<Member>,
    observers: seq<nat>,
    told: map<nat, seq<RoomNote>>)

  const EMPTY := Hall(map[], [], [], map[])

  // ----- Steps -----

  function Hear(m: Member, t: Talk): Member {
    if m.listening then m.(heard := m.heard + [t]) else m
  }

  /** Each listed member hears it. */
  function Tell(members: seq<Member>, ids: seq<nat>, t: Talk): (told: seq<Member>)
    ensures |told| == |members|
  {
    seq(|members|, id requires 0 <= id < |members| => if id in ids then Hear(members[id], t) else members[id])
  }

  /** Each registered observer is told. */
  function Announce(told: map<nat, seq<RoomNote>>, observers: seq<nat>, n: RoomNote): map<nat, seq<RoomNote>> {
    map o | o in told :: if o in observers then told[o] + [n] else told[o]
  }

  predicate HasUser(h: Hall, ids: seq<nat>, user: string) {
    exists i :: 0 <= i < |ids| && ids[i] < |h.members| && h.members[ids[i]].user == user
  }

  function Opened(h: Hall, room: string): Hall {
    if room in h.rooms then h
    else h.(rooms := h.rooms[room := []], told := Announce(h.told, h.observers, Created(room)))
  }

  function Enter(h: Hall, room: string, user: string): Hall
    requires room in h.rooms
  {
    var ids := h.rooms[room] + [|h.members|];
    h.(rooms := h.rooms[room := ids],
       members := Tell(h.members + [Member(room, user, false, false, [], [])], ids, Joined(user)))
  }

  function OnJoin(h: Hall, room: string, user: string): Hall {
    var there := Opened(h, room);
    if HasUser(there, there.rooms[room], user) then there else Enter(there, room, user)
  }

  predicate Live(h: Hall, id: nat) {
    id < |h.members| && h.members[id].room in h.rooms && id in h.rooms[h.members[id].room]
  }

  /** A member is destroyed: it is no longer listed, the others hear it, and an empty room is closed. */
  function OnExit(h: Hall, id: nat): Hall
    requires Live(h, id)
  {
    var room, user := h.members[id].room, h.members[id].user;
    var rest := Without(h.rooms[room], id);
    var left := h.(members := Tell(h.members, rest, Left(user)));
    if rest == [] then left.(rooms := h.rooms - {room}, told := Announce(h.told, h.observers, Destroyed(room)))
    else left.(rooms := h.rooms[room := rest])
  }

  /** The first half of SetCallback. */
  function OnInstall(h: Hall, id: nat, listening: bool): Hall
    requires id < |h.members|
  {
    h.(members := h.members[id := h.members[id].(listening := listening, briefed := false, prior := [], heard := [])])
  }

  function UserOf(members: seq<Member>, id: nat): string {
    if id < |members| then members[id].user else ""
  }

  /** Joined for each of the listed members, in order. */
  function Roll(members: seq<Member>, ids: seq<nat>): seq<Talk> {
    if ids == [] then []
    else Roll(members, ids[..|ids| - 1]) + [Joined(UserOf(members, ids[|ids| - 1]))]
  }

  /** The second half of SetCallback: the callback is told who is there. */
  function OnNotify(h: Hall, id: nat): Hall
    requires Live(h, id)
  {
    var m := h.members[id];
    h.(members := h.members[id :=
         m.(briefed := true, prior := m.heard,
            heard := if m.listening then m.heard + Roll(h.members, h.rooms[m.room]) else m.heard)])
  }

  /** Created for each of the rooms, in some order. */
  function Roster(order: seq<string>): seq<RoomNote> {
    if order == [] then [] else Roster(order[..|order| - 1]) + [Created(order[|order| - 1])]
  }

  predicate Enumerates(order: seq<string>, rooms: set<string>) {
    (forall i, j :: 0 <= i < j < |order| ==> order[i] != order[j]) && (set r | r in order) == rooms
  }

  function OnRegister(h: Hall, o: nat, order: seq<string>): Hall {
    if o in h.observers then h
    else h.(observers := h.observers + [o], told := h.told[o := Roster(order)])
  }

  function OnUnregister(h: Hall, o: nat): Hall {
    h.(observers := Without(h.observers, o))
  }

  // ----- The invariant -----

  function Users(members: seq<Member>, ids: seq<nat>): set<string> {
    set i | i in ids && i < |members| :: members[i].user
  }

  /** A room has members, all of them of this room, and no two of the same name. */
  predicate RoomOk(members: seq<Member>, room: string, ids: seq<nat>) {
    && ids != []
    && (forall i :: 0 <= i < |ids| ==> ids[i] < |members| && members[ids[i]].room == room)
    && (forall i, j :: 0 <= i < j < |ids| ==> members[ids[i]].user != members[ids[j]].user)
  }

  /** What was heard before the briefing leaves nobody known, and had only known users leave. */
  predicate ComesToNothing(prior: seq<Talk>) {
    OnlyKnownLeave(prior) && Replay(prior) == {}
  }

  /**
   What a listening member heard comes to members of its room, and once briefed to all of them. It is
   strict before the briefing as long as only known users leave, and after it if what was heard
   before came to nothing.
   */
  predicate HeardOk(m: Member, users: set<string>) {
    m.listening ==>
      && Replay(m.heard) <= users
      && (m.briefed ==> Replay(m.heard) == users)
      && (Strict(m.heard) <==> if m.briefed then ComesToNothing(m.prior) else OnlyKnownLeave(m.heard))
  }

  ghost predicate MemberOk(h: Hall, id: nat) {
    Live(h, id) ==> HeardOk(h.members[id], Users(h.members, h.rooms[h.members[id].room]))
  }

  predicate ObserverOk(h: Hall, o: nat) {
    o in h.observers ==> o in h.told && ReplayRooms(h.told[o]) == Known(h.rooms.Keys)
  }

  ghost predicate Inv(h: Hall) {
    && (forall room :: room in h.rooms ==> RoomOk(h.members, room, h.rooms[room]))
    && (forall id: nat :: MemberOk(h, id))
    && (forall o: nat :: ObserverOk(h, o))
  }

  lemma EmptyInv()
    ensures Inv(EMPTY)
  {
  }

  // ----- Joining -----

  /** Same rooms and names: hearing changes neither. */
  lemma TellKeepsUsers(members: seq<Member>, ids: seq<nat>, t: Talk, others: seq<nat>)
    ensures Users(Tell(members, ids, t), others) == Users(members, others)
  {
    var told := Tell(members, ids, t);
    forall i | 0 <= i < |members| ensures told[i].user == members[i].user {}
  }

  lemma TellKeepsRoom(members: seq<Member>, ids: seq<nat>, t: Talk, room: string, others: seq<nat>)
    ensures RoomOk(Tell(members, ids, t), room, others) <==> RoomOk(members, room, others)
  {
    var told := Tell(members, ids, t);
    forall i | 0 <= i < |members| ensures told[i].user == members[i].user && told[i].room == members[i].room {}
  }

  lemma HearKeepsUp(m: Member, t: Talk, users: set<string>)
    requires HeardOk(m, users) && News(users, t)
    ensures HeardOk(Hear(m, t), Next(users, t))
  {
    ReplaySnoc(m.heard, t);
    StrictSnoc(m.heard, t);
  }

  /** The members after someone entered. */
  function Entered(members: seq<Member>, ids: seq<nat>, room: string, user: string): seq<Member> {
    Tell(members + [Member(room, user, false, false, [], [])], ids + [|members|], Joined(user))
  }

  lemma EnteredUsers(members: seq<Member>, ids: seq<nat>, room: string, user: string)
    ensures Users(Entered(members, ids, room, user), ids + [|members|]) == Users(members, ids) + {user}
  {
    var after := Entered(members, ids, room, user);
    forall i | 0 <= i < |members| ensures after[i].user == members[i].user {}
    assert after[|members|].user == user;
    var more := ids + [|members|];
    assert forall i :: i in more <==> i in ids || i == |members|;
    assert |members| in more;
  }

  lemma EnteredElsewhere(members: seq<Member>, ids: seq<nat>, room: string, user: string,
      other: string, others: seq<nat>)
    requires other != room && RoomOk(members, other, others)
    requires forall i :: 0 <= i < |ids| ==> ids[i] < |members| && members[ids[i]].room == room
    ensures RoomOk(Entered(members, ids, room, user), other, others)
    ensures Users(Entered(members, ids, room, user), others) == Users(members, others)
    ensures forall i :: i in others ==> Entered(members, ids, room, user)[i] == members[i]
  {
    var after := Entered(members, ids, room, user);
    forall i | 0 <= i < |members| ensures after[i].user == members[i].user && after[i].room == members[i].room {}
  }

  lemma EnteredRoom(members: seq<Member>, ids: seq<nat>, room: string, user: string)
    requires forall i :: 0 <= i < |ids| ==>
      ids[i] < |members| && members[ids[i]].room == room && members[ids[i]].user != user
    requires forall i, j :: 0 <= i < j < |ids| ==> members[ids[i]].user != members[ids[j]].user
    ensures RoomOk(Entered(members, ids, room, user), room, ids + [|members|])
  {
    var after := Entered(members, ids, room, user);
    forall i | 0 <= i < |members| ensures after[i].user == members[i].user && after[i].room == members[i].room {}
  }

  function Listed(h: Hall, room: string): seq<nat> {
    if room in h.rooms then h.rooms[room] else []
  }

  /** A member of the room hears who entered. */
  lemma EnteredHeard(members: seq<Member>, ids: seq<nat>, room: string, user: string, id: nat)
    requires id in ids && id < |members| && HeardOk(members[id], Users(members, ids)) && user !in Users(members, ids)
    ensures HeardOk(Entered(members, ids, room, user)[id], Users(Entered(members, ids, room, user), ids + [|members|]))
  {
    EnteredUsers(members, ids, room, user);
    HearKeepsUp(members[id], Joined(user), Users(members, ids));
  }

  lemma UserUnknown(h: Hall, ids: seq<nat>, user: string)
    ensures HasUser(h, ids, user) <==> user in Users(h.members, ids)
  {
    if user in Users(h.members, ids) {
      var id :| id in ids && id < |h.members| && h.members[id].user == user;
      var i :| 0 <= i < |ids| && ids[i] == id;
    }
    if HasUser(h, ids, user) {
      var i :| 0 <= i < |ids| && ids[i] < |h.members| && h.members[ids[i]].user == user;
      assert ids[i] in ids;
    }
  }

  lemma JoinKeepsMember(h: Hall, room: string, user: string, id: nat)
    requires Inv(h) && !HasUser(h, Listed(h, room), user)
    ensures MemberOk(OnJoin(h, room, user), id)
  {
    var ids, n := Listed(h, room), OnJoin(h, room, user);
    assert n.members == Entered(h.members, ids, room, user);
    if Live(n, id) && id < |h.members| {
      var r := n.members[id].room;
      assert r == h.members[id].room && MemberOk(h, id);
      if r == room {
        UserUnknown(h, ids, user);
        EnteredHeard(h.members, ids, room, user, id);
      } else {
        EnteredElsewhere(h.members, ids, room, user, r, h.rooms[r]);
      }
    }
  }

  lemma JoinKeepsRoom(h: Hall, room: string, user: string, other: string)
    requires Inv(h) && !HasUser(h, Listed(h, room), user) && other in OnJoin(h, room, user).rooms
    ensures RoomOk(OnJoin(h, room, user).members, other, OnJoin(h, room, user).rooms[other])
  {
    var ids, n := Listed(h, room), OnJoin(h, room, user);
    assert n.members == Entered(h.members, ids, room, user);
    if other == room {
      EnteredRoom(h.members, ids, room, user);
    } else {
      EnteredElsewhere(h.members, ids, room, user, other, h.rooms[other]);
    }
  }

  lemma OpenedKeepsObserver(h: Hall, room: string, o: nat)
    requires ObserverOk(h, o)
    ensures ObserverOk(Opened(h, room), o) && Opened(h, room).rooms.Keys == h.rooms.Keys + {room}
  {
    if o in h.observers && room !in h.rooms {
      ReplayRoomsSnoc(h.told[o], Created(room));
    }
  }

  lemma JoinKeepsObserver(h: Hall, room: string, user: string, o: nat)
    requires ObserverOk(h, o)
    ensures ObserverOk(OnJoin(h, room, user), o)
  {
    OpenedKeepsObserver(h, room, o);
    var there, n := Opened(h, room), OnJoin(h, room, user);
    assert n.rooms.Keys == there.rooms.Keys && n.told == there.told && n.observers == there.observers;
  }

  lemma JoinKeeps(h: Hall, room: string, user: string)
    requires Inv(h)
    ensures Inv(OnJoin(h, room, user))
  {
    var n := OnJoin(h, room, user);
    forall o: nat ensures ObserverOk(n, o) { JoinKeepsObserver(h, room, user, o); }
    if HasUser(h, Listed(h, room), user) {
      assert n.rooms == h.rooms && n.members == h.members;
      forall id: nat ensures MemberOk(n, id) { assert MemberOk(h, id); }
    } else {
      forall other | other in n.rooms ensures RoomOk(n.members, other, n.rooms[other]) {
        JoinKeepsRoom(h, room, user, other);
      }
      forall id: nat ensures MemberOk(n, id) { JoinKeepsMember(h, room, user, id); }
    }
  }

  // ----- Leaving -----

  lemma LeftUsers(members: seq<Member>, room: string, ids: seq<nat>, id: nat, t: Talk)
    requires RoomOk(members, room, ids) && id in ids
    ensures Users(Tell(members, Without(ids, id), t), Without(ids, id)) == Users(members, ids) - {members[id].user}
  {
    var rest := Without(ids, id);
    TellKeepsUsers(members, rest, t, rest);
    forall i | i in ids && members[i].user == members[id].user ensures i == id {
      OneOfTheName(members, room, ids, i, id);
    }
  }

  lemma OneOfTheName(members: seq<Member>, room: string, ids: seq<nat>, i: nat, j: nat)
    requires RoomOk(members, room, ids) && i in ids && j in ids && members[i].user == members[j].user
    ensures i == j
  {
  }

  lemma {:induction false} WithoutKeepsOrder(members: seq<Member>, room: string, ids: seq<nat>, id: nat)
    requires RoomOk(members, room, ids) && Without(ids, id) != []
    ensures RoomOk(members, room, Without(ids, id))
    decreases |ids|
  {
    if ids[0] == id || ids[1..] == [] {
      SameBehind(members, room, ids, id);
    } else if Without(ids[1..], id) == [] {
      assert Without(ids, id) == [ids[0]];
    } else {
      TailOk(members, room, ids);
      WithoutKeepsOrder(members, room, ids[1..], id);
      HeadApart(members, room, ids, Without(ids[1..], id));
    }
  }

  lemma TailOk(members: seq<Member>, room: string, ids: seq<nat>)
    requires RoomOk(members, room, ids) && ids[1..] != []
    ensures RoomOk(members, room, ids[1..])
  {
  }

  lemma HeadApart(members: seq<Member>, room: string, ids: seq<nat>, rest: seq<nat>)
    requires RoomOk(members, room, ids) && RoomOk(members, room, rest) && forall i :: i in rest ==> i in ids[1..]
    ensures RoomOk(members, room, [ids[0]] + rest)
  {
    var more := [ids[0]] + rest;
    forall i | 0 <= i < |rest| ensures members[rest[i]].user != members[ids[0]].user {
      assert rest[i] in rest && rest[i] in ids[1..];
      var k :| 0 <= k < |ids[1..]| && ids[1..][k] == rest[i];
      assert ids[k + 1] == rest[i];
    }
  }

  lemma SameBehind(members: seq<Member>, room: string, ids: seq<nat>, id: nat)
    requires RoomOk(members, room, ids) && Without(ids, id) != [] && (ids[0] == id || ids[1..] == [])
    ensures RoomOk(members, room, Without(ids, id))
  {
    if ids[0] == id {
      HeadOnce(members, room, ids);
      AbsentWithout(ids[1..], id);
      TailOk(members, room, ids);
    } else {
      assert Without(ids[1..], id) == [];
      assert Without(ids, id) == [ids[0]];
    }
  }

  lemma HeadOnce(members: seq<Member>, room: string, ids: seq<nat>)
    requires RoomOk(members, room, ids)
    ensures ids[0] !in ids[1..]
  {
    forall k | 0 <= k < |ids[1..]| ensures ids[1..][k] != ids[0] {
      assert ids[1..][k] == ids[k + 1];
    }
  }

  lemma {:induction false} AbsentWithout(ids: seq<nat>, id: nat)
    requires id !in ids
    ensures Without(ids, id) == ids
  {
    if ids != [] { AbsentWithout(ids[1..], id); }
  }

  lemma LeftElsewhere(members: seq<Member>, room: string, rest: seq<nat>, t: Talk, other: string, others: seq<nat>)
    requires other != room && RoomOk(members, other, others)
    requires forall i :: i in rest ==> i < |members| && members[i].room == room
    ensures RoomOk(Tell(members, rest, t), other, others)
    ensures Users(Tell(members, rest, t), others) == Users(members, others)
    ensures forall i :: i in others ==> Tell(members, rest, t)[i] == members[i]
  {
    TellKeepsRoom(members, rest, t, other, others);
    TellKeepsUsers(members, rest, t, others);
  }

  lemma ExitKeepsMember(h: Hall, gone: nat, id: nat)
    requires Inv(h) && Live(h, gone)
    ensures MemberOk(OnExit(h, gone), id)
  {
    var room, user, n := h.members[gone].room, h.members[gone].user, OnExit(h, gone);
    var rest := Without(h.rooms[room], gone);
    assert n.members == Tell(h.members, rest, Left(user));
    if Live(n, id) {
      var r := n.members[id].room;
      assert r == h.members[id].room && MemberOk(h, id);
      if r == room {
        LeftUsers(h.members, room, h.rooms[room], gone, Left(user));
        HearKeepsUp(h.members[id], Left(user), Users(h.members, h.rooms[room]));
      } else {
        LeftElsewhere(h.members, room, rest, Left(user), r, h.rooms[r]);
      }
    }
  }

  lemma ExitKeepsRoom(h: Hall, gone: nat, other: string)
    requires Inv(h) && Live(h, gone) && other in OnExit(h, gone).rooms
    ensures RoomOk(OnExit(h, gone).members, other, OnExit(h, gone).rooms[other])
  {
    var room, user, n := h.members[gone].room, h.members[gone].user, OnExit(h, gone);
    var rest := Without(h.rooms[room], gone);
    assert n.members == Tell(h.members, rest, Left(user));
    if other == room {
      WithoutKeepsOrder(h.members, room, h.rooms[room], gone);
      TellKeepsRoom(h.members, rest, Left(user), room, rest);
    } else {
      LeftElsewhere(h.members, room, rest, Left(user), other, h.rooms[other]);
    }
  }

  lemma ExitKeepsObserver(h: Hall, gone: nat, o: nat)
    requires Live(h, gone) && ObserverOk(h, o)
    ensures ObserverOk(OnExit(h, gone), o)
  {
    var room, n := h.members[gone].room, OnExit(h, gone);
    if Without(h.rooms[room], gone) == [] {
      assert n.rooms.Keys == h.rooms.Keys - {room};
      if o in h.observers { ReplayRoomsSnoc(h.told[o], Destroyed(room)); }
    } else {
      assert n.rooms.Keys == h.rooms.Keys;
    }
  }

  lemma ExitKeeps(h: Hall, gone: nat)
    requires Inv(h) && Live(h, gone)
    ensures Inv(OnExit(h, gone))
  {
    var n := OnExit(h, gone);
    forall o: nat ensures ObserverOk(n, o) { ExitKeepsObserver(h, gone, o); }
    forall room | room in n.rooms ensures RoomOk(n.members, room, n.rooms[room]) { ExitKeepsRoom(h, gone, room); }
    forall id: nat ensures MemberOk(n, id) { ExitKeepsMember(h, gone, id); }
  }

  // ----- Following the room -----

  lemma ChangedKeepsRest(h: Hall, n: Hall, id: nat)
    requires Inv(h) && id < |h.members| && n.rooms == h.rooms && n.observers == h.observers && n.told == h.told
    requires |n.members| == |h.members|
    requires forall i :: 0 <= i < |h.members| && i != id ==> n.members[i] == h.members[i]
    requires n.members[id].user == h.members[id].user && n.members[id].room == h.members[id].room
    requires Live(h, id) ==> HeardOk(n.members[id], Users(h.members, h.rooms[h.members[id].room]))
    ensures Inv(n)
  {
    forall o: nat ensures ObserverOk(n, o) { assert ObserverOk(h, o); }
    forall ids ensures Users(n.members, ids) == Users(h.members, ids) {
      forall i | 0 <= i < |h.members| ensures n.members[i].user == h.members[i].user {}
    }
    forall room | room in n.rooms ensures RoomOk(n.members, room, n.rooms[room]) {
      assert RoomOk(h.members, room, h.rooms[room]);
    }
    forall i: nat ensures MemberOk(n, i) { assert MemberOk(h, i); }
  }

  lemma InstallKeeps(h: Hall, id: nat, listening: bool)
    requires Inv(h) && id < |h.members|
    ensures Inv(OnInstall(h, id, listening))
  {
    ChangedKeepsRest(h, OnInstall(h, id, listening), id);
  }

  lemma {:induction false} RollReplays(heard: seq<Talk>, members: seq<Member>, ids: seq<nat>)
    requires forall k :: 0 <= k < |ids| ==> ids[k] < |members|
    ensures Replay(heard + Roll(members, ids)) == Replay(heard) + Users(members, ids)
    decreases |ids|
  {
    if ids == [] {
      assert heard + [] == heard;
    } else {
      var front, last := ids[..|ids| - 1], ids[|ids| - 1];
      RollReplays(heard, members, front);
      ReplaySnoc(heard + Roll(members, front), Joined(members[last].user));
      assert heard + Roll(members, ids) == (heard + Roll(members, front)) + [Joined(members[last].user)];
      UsersSnoc(members, front, last);
      assert front + [last] == ids;
    }
  }

  lemma UsersSnoc(members: seq<Member>, ids: seq<nat>, last: nat)
    requires last < |members|
    ensures Users(members, ids + [last]) == Users(members, ids) + {members[last].user}
  {
    assert forall i :: i in ids + [last] <==> i in ids || i == last;
    assert last in ids + [last];
  }

  /** The roll of a room is told strictly exactly after what was heard strictly and left none of them known. */
  lemma {:induction false} RollStrict(heard: seq<Talk>, members: seq<Member>, ids: seq<nat>)
    requires forall k :: 0 <= k < |ids| ==> ids[k] < |members|
    requires forall i, j :: 0 <= i < j < |ids| ==> members[ids[i]].user != members[ids[j]].user
    ensures Strict(heard + Roll(members, ids)) <==> Strict(heard) && Replay(heard) !! Users(members, ids)
    decreases |ids|
  {
    if ids == [] {
      assert heard + [] == heard;
    } else {
      var front, last := ids[..|ids| - 1], ids[|ids| - 1];
      RollStrict(heard, members, front);
      RollReplays(heard, members, front);
      var before, user := heard + Roll(members, front), members[last].user;
      StrictSnoc(before, Joined(user));
      assert heard + Roll(members, ids) == before + [Joined(user)];
      UsersSnoc(members, front, last);
      assert front + [last] == ids;
      LastIsAnother(members, ids);
    }
  }

  lemma LastIsAnother(members: seq<Member>, ids: seq<nat>)
    requires ids != [] && forall k :: 0 <= k < |ids| ==> ids[k] < |members|
    requires forall i, j :: 0 <= i < j < |ids| ==> members[ids[i]].user != members[ids[j]].user
    ensures members[ids[|ids| - 1]].user !in Users(members, ids[..|ids| - 1])
  {
    var front := ids[..|ids| - 1];
    forall i | i in front ensures members[i].user != members[ids[|ids| - 1]].user {
      var k :| 0 <= k < |front| && front[k] == i;
      assert ids[k] == i;
    }
  }

  /** A briefing brings the stream level with the room, and keeps it strict if what came before came to nothing. */
  lemma RollKeepsUp(m: Member, members: seq<Member>, ids: seq<nat>)
    requires m.listening && RoomOk(members, m.room, ids) && HeardOk(m, Users(members, ids))
    ensures HeardOk(m.(briefed := true, prior := m.heard, heard := m.heard + Roll(members, ids)), Users(members, ids))
  {
    RollReplays(m.heard, members, ids);
    RollStrict(m.heard, members, ids);
    assert ids[0] in ids && members[ids[0]].user in Users(members, ids);
    assert Replay(m.heard) !! Users(members, ids) <==> Replay(m.heard) == {};
  }

  lemma NotifyKeeps(h: Hall, id: nat)
    requires Inv(h) && Live(h, id)
    ensures Inv(OnNotify(h, id))
  {
    var m := h.members[id];
    assert MemberOk(h, id);
    if m.listening { RollKeepsUp(m, h.members, h.rooms[m.room]); }
    ChangedKeepsRest(h, OnNotify(h, id), id);
  }

  // ----- Observers -----

  lemma SetSnoc(front: seq<string>, last: string)
    ensures (set r | r in front + [last]) == (set r | r in front) + {last}
  {
    assert forall r :: r in front + [last] <==> r in front || r == last;
  }

  lemma {:induction false} RosterReplays(order: seq<string>)
    requires forall i, j :: 0 <= i < j < |order| ==> order[i] != order[j]
    ensures ReplayRooms(Roster(order)) == Known(set r | r in order)
  {
    if order != [] {
      var front, last := order[..|order| - 1], order[|order| - 1];
      RosterReplays(front);
      ReplayRoomsSnoc(Roster(front), Created(last));
      SetSnoc(front, last);
      assert front + [last] == order;
    }
  }

  lemma RegisterKeeps(h: Hall, o: nat, order: seq<string>)
    requires Inv(h) && Enumerates(order, h.rooms.Keys)
    ensures Inv(OnRegister(h, o, order))
  {
    var n := OnRegister(h, o, order);
    RosterReplays(order);
    forall p: nat ensures ObserverOk(n, p) { assert ObserverOk(h, p); }
    forall id: nat ensures MemberOk(n, id) { assert MemberOk(h, id); }
  }

  lemma UnregisterKeeps(h: Hall, o: nat)
    requires Inv(h)
    ensures Inv(OnUnregister(h, o))
  {
    var n := OnUnregister(h, o);
    forall p: nat ensures ObserverOk(n, p) { assert ObserverOk(h, p); }
    forall id: nat ensures MemberOk(n, id) { assert MemberOk(h, id); }
  }

  // ----- Runs -----

  datatype Step =
    | Join(room: string, user: string)
    | Exit(id: nat)
    | Install(id: nat, listening: bool)
    | Notify(id: nat)
    | Register(o: nat, order: seq<string>)
    | Unregister(o: nat)

  /** Only live members are let go or follow their room; other steps can always be taken. */
  predicate Enabled(h: Hall, s: Step) {
    match s
    case Join(_, _) => true
    case Exit(id) => Live(h, id)
    case Install(id, _) => id < |h.members|
    case Notify(id) => Live(h, id)
    case Register(o, order) => Enumerates(order, h.rooms.Keys)
    case Unregister(_) => true
  }

  function Apply(h: Hall, s: Step): Hall {
    match s
    case Join(room, user) => OnJoin(h, room, user)
    case Exit(id) => if Live(h, id) then OnExit(h, id) else h
    case Install(id, listening) => if id < |h.members| then OnInstall(h, id, listening) else h
    case Notify(id) => if Live(h, id) then OnNotify(h, id) else h
    case Register(o, order) => OnRegister(h, o, order)
    case Unregister(o) => OnUnregister(h, o)
  }

  lemma StepKeeps(h: Hall, s: Step)
    requires Inv(h) && Enabled(h, s)
    ensures Inv(Apply(h, s))
  {
    match s
    case Join(room, user) => JoinKeeps(h, room, user);
    case Exit(id) => ExitKeeps(h, id);
    case Install(id, listening) => InstallKeeps(h, id, listening);
    case Notify(id) => NotifyKeeps(h, id);
    case Register(o, order) => RegisterKeeps(h, o, order);
    case Unregister(o) => UnregisterKeeps(h, o);
  }

  predicate Runs(h: Hall, steps: seq<Step>) {
    StateMachine.Runs(Enabled, Apply, h, steps)
  }

  function After(h: Hall, steps: seq<Step>): Hall {
    StateMachine.After(Apply, h, steps)
  }

  lemma RunKeeps(h: Hall, steps: seq<Step>)
    requires Inv(h) && Runs(h, steps)
    ensures Inv(After(h, steps))
  {
    forall x: Hall, t: Step | Inv(x) && Enabled(x, t) ensures Inv(Apply(x, t)) { StepKeeps(x, t); }
    StateMachine.RunKeeps(Enabled, Apply, Inv, h, steps);
  }

  /** After every run a room has members, all of different names, and every observer knows the rooms. */
  lemma RoomsOverRuns(steps: seq<Step>)
    requires Runs(EMPTY, steps)
    ensures var h := After(EMPTY, steps);
            forall room :: room in h.rooms ==> RoomOk(h.members, room, h.rooms[room])
    ensures var h := After(EMPTY, steps);
            forall o :: o in h.observers ==> o in h.told && ReplayRooms(h.told[o]) == Known(h.rooms.Keys)
  {
    EmptyInv();
    RunKeeps(EMPTY, steps);
    forall o | o in After(EMPTY, steps).observers ensures ObserverOk(After(EMPTY, steps), o) {}
  }

  /** And what a member's callback heard since it was set comes to the members of its room. */
  lemma MembersOverRuns(steps: seq<Step>, id: nat)
    requires Runs(EMPTY, steps) && Live(After(EMPTY, steps), id) && After(EMPTY, steps).members[id].listening
    ensures var h := After(EMPTY, steps);
            var m := h.members[id];
            && Replay(m.heard) <= Users(h.members, h.rooms[m.room])
            && (m.briefed ==> Replay(m.heard) == Users(h.members, h.rooms[m.room]))
  {
    EmptyInv();
    RunKeeps(EMPTY, steps);
    assert MemberOk(After(EMPTY, steps), id);
  }

  // ----- What is heard twice, and what is heard of strangers -----

  /**
   Over every run, what a member heard since its callback was set is strict, before the briefing, if
   and only if only known users left, and after it if and only if what was heard between the two
   halves of SetCallback came to nothing: whoever joined left again, and nobody else left.
   */
  lemma StrictExactly(steps: seq<Step>, id: nat)
    requires Runs(EMPTY, steps) && Live(After(EMPTY, steps), id) && After(EMPTY, steps).members[id].listening
    ensures var m := After(EMPTY, steps).members[id];
            Strict(m.heard) <==> if m.briefed then ComesToNothing(m.prior) else OnlyKnownLeave(m.heard)
  {
    EmptyInv();
    RunKeeps(EMPTY, steps);
    assert MemberOk(After(EMPTY, steps), id);
  }

  /** Somewhere in the second stream a user joins who is known by then. */
  predicate Repeats(heard: seq<Talk>, more: seq<Talk>, user: string) {
    exists i :: 0 <= i < |more| && more[i] == Joined(user) && user in Replay(heard + more[..i])
  }

  lemma {:induction false} RollAt(members: seq<Member>, ids: seq<nat>, i: nat)
    requires i < |ids|
    ensures |Roll(members, ids)| == |ids|
    ensures Roll(members, ids)[i] == Joined(UserOf(members, ids[i]))
    ensures Roll(members, ids)[..i] == Roll(members, ids[..i])
    decreases |ids|
  {
    var front := ids[..|ids| - 1];
    if front != [] { RollAt(members, front, if i < |front| then i else 0); }
    if i < |front| { assert front[..i] == ids[..i]; }
    assert i == |front| ==> Roll(members, ids)[..i] == Roll(members, front) && ids[..i] == front;
  }

  /** The briefing of a member repeats exactly the users that it knows when it begins. */
  lemma BriefingRepeats(h: Hall, id: nat, user: string)
    requires Inv(h) && Live(h, id) && h.members[id].listening
    ensures Repeats(h.members[id].heard, Roll(h.members, h.rooms[h.members[id].room]), user)
       <==> user in Replay(h.members[id].heard)
  {
    var m, ids := h.members[id], h.rooms[h.members[id].room];
    assert MemberOk(h, id) && RoomOk(h.members, m.room, ids);
    var roll := Roll(h.members, ids);
    if Repeats(m.heard, roll, user) {
      var i :| 0 <= i < |roll| && roll[i] == Joined(user) && user in Replay(m.heard + roll[..i]);
      KnownBefore(m.heard, h.members, m.room, ids, i, user);
    }
    if user in Replay(m.heard) {
      UserUnknown(h, ids, user);
      KnownRepeats(h, ids, m.heard, user);
    }
  }

  lemma KnownRepeats(h: Hall, ids: seq<nat>, heard: seq<Talk>, user: string)
    requires forall k :: 0 <= k < |ids| ==> ids[k] < |h.members|
    requires HasUser(h, ids, user) && user in Replay(heard)
    ensures Repeats(heard, Roll(h.members, ids), user)
  {
    var roll := Roll(h.members, ids);
    var k :| 0 <= k < |ids| && ids[k] < |h.members| && h.members[ids[k]].user == user;
    RollAt(h.members, ids, k);
    RollReplays(heard, h.members, ids[..k]);
    assert roll[k] == Joined(user) && user in Replay(heard + roll[..k]);
  }

  lemma KnownBefore(heard: seq<Talk>, members: seq<Member>, room: string, ids: seq<nat>, i: nat, user: string)
    requires RoomOk(members, room, ids) && i < |Roll(members, ids)| && Roll(members, ids)[i] == Joined(user)
    requires user in Replay(heard + Roll(members, ids)[..i])
    ensures user in Replay(heard)
  {
    RollAt(members, ids, 0);
    RollAt(members, ids, i);
    RollReplays(heard, members, ids[..i]);
    forall j | j in ids[..i] ensures members[j].user != user {
      var k :| 0 <= k < |ids[..i]| && ids[..i][k] == j;
      assert ids[k] == j;
    }
  }

  /** What a briefed member hears when others come and go is always news to it. */
  lemma BriefedHearsNews(h: Hall, s: Step, id: nat)
    requires Inv(h) && Enabled(h, s) && (s.Join? || s.Exit?) && Live(h, id) && Live(Apply(h, s), id)
    requires h.members[id].listening && h.members[id].briefed
    ensures var m, n := h.members[id], Apply(h, s).members[id];
            n.heard == m.heard || exists t :: News(Replay(m.heard), t) && n.heard == m.heard + [t]
  {
    assert MemberOk(h, id);
    var m := h.members[id];
    match s
    case Join(room, user) =>
      var ids := Listed(h, room);
      UserUnknown(h, ids, user);
      if !HasUser(h, ids, user) && id in ids {
        assert RoomOk(h.members, room, ids);
        assert Apply(h, s).members[id] == Hear(m, Joined(user));
        assert News(Replay(m.heard), Joined(user));
      }
    case Exit(gone) =>
      var room, user := h.members[gone].room, h.members[gone].user;
      if id in Without(h.rooms[room], gone) {
        assert RoomOk(h.members, room, h.rooms[room]);
        assert Apply(h, s).members[id] == Hear(m, Left(user));
        assert News(Replay(m.heard), Left(user));
      }
  }

  // ----- Both can happen -----

  /** A user that joins between the two halves of SetCallback is heard twice. */
  lemma JoinedTwice(h: Hall, id: nat, user: string)
    requires Inv(h) && Live(h, id) && !HasUser(h, h.rooms[h.members[id].room], user)
    ensures var n := OnJoin(OnInstall(h, id, true), h.members[id].room, user);
            Live(n, id) && !Strict(OnNotify(n, id).members[id].heard)
  {
    var installed := OnInstall(h, id, true);
    InstallKeeps(h, id, true);
    JoinKeeps(installed, h.members[id].room, user);
    SetHears(h, installed, id, user);
    var n := OnJoin(installed, h.members[id].room, user);
    assert n.members[id].heard == [] + [Joined(user)] == [Joined(user)];
    ReplaySnoc([], Joined(user));
    NotifyKeeps(n, id);
    assert MemberOk(OnNotify(n, id), id);
  }

  lemma SetHears(h: Hall, installed: Hall, id: nat, user: string)
    requires Inv(h) && Live(h, id) && !HasUser(h, h.rooms[h.members[id].room], user)
    requires installed == OnInstall(h, id, true)
    ensures OnJoin(installed, h.members[id].room, user) == Enter(installed, h.members[id].room, user)
  {
    forall i | 0 <= i < |h.members| ensures installed.members[i].user == h.members[i].user {}
  }

  /** A user that leaves between the two halves is heard to leave without having been heard of. */
  lemma StrangerLeaves(h: Hall, id: nat, gone: nat)
    requires Inv(h) && Live(h, id) && Live(h, gone) && id != gone && h.members[id].room == h.members[gone].room
    ensures var n := OnExit(OnInstall(h, id, true), gone);
            Live(n, id) && n.members[id].heard == [Left(h.members[gone].user)] && !Strict(n.members[id].heard)
  {
    var installed := OnInstall(h, id, true);
    InstallKeeps(h, id, true);
    var n := OnExit(installed, gone);
    assert n.members[id].heard == [] + [Left(h.members[gone].user)];
    StrictSnoc([], Left(h.members[gone].user));
  }

  // ----- From the empty hall -----

  ghost predicate Reached(h: Hall) {
    exists steps :: StateMachine.Leads(Enabled, Apply, EMPTY, steps, h)
  }

  lemma ReachedNext(h: Hall, s: Step)
    requires Reached(h) && Inv(h) && Enabled(h, s)
    ensures Reached(Apply(h, s)) && Inv(Apply(h, s))
  {
    var steps :| StateMachine.Leads(Enabled, Apply, EMPTY, steps, h);
    StateMachine.OneStepLeads(Enabled, Apply, h, s);
    StateMachine.LeadsOn(Enabled, Apply, EMPTY, steps, h, [s], Apply(h, s));
    assert StateMachine.Leads(Enabled, Apply, EMPTY, steps + [s], Apply(h, s));
    StepKeeps(h, s);
  }

  /** The hall with one member. */
  function OneMember(room: string, user: string): Hall {
    OnJoin(EMPTY, room, user)
  }

  lemma OneMemberReached(room: string, user: string)
    ensures var h := OneMember(room, user);
            && Reached(h) && Inv(h) && Live(h, 0) && |h.members| == 1
            && h.members[0].room == room && h.members[0].user == user && h.rooms[room] == [0]
  {
    EmptyInv();
    assert StateMachine.Leads(Enabled, Apply, EMPTY, [], EMPTY);
    ReachedNext(EMPTY, Join(room, user));
    assert [] + [0] == [0];
  }

  /** The second of two users in a room is heard twice by the first. */
  lemma JoinedTwiceReached(room: string, user: string, other: string)
    requires user != other
    ensures exists h :: Reached(h) && Live(h, 0) && h.members[0].listening && !Strict(h.members[0].heard)
  {
    var h := OneMember(room, user);
    OneMemberReached(room, user);
    ReachedNext(h, Install(0, true));
    var installed := OnInstall(h, 0, true);
    ReachedNext(installed, Join(room, other));
    var n := OnJoin(installed, room, other);
    JoinedTwice(h, 0, other);
    ReachedNext(n, Notify(0));
    assert n.members[0].listening;
  }

  lemma EntersLast(h: Hall, room: string, user: string)
    requires room in h.rooms
    ensures var n, id := Enter(h, room, user), |h.members|;
            && |n.members| == id + 1 && n.rooms[room] == h.rooms[room] + [id]
            && n.members[id].room == room && n.members[id].user == user
            && forall i :: 0 <= i < id ==> n.members[i].room == h.members[i].room
  {
  }

  lemma AnotherJoins(one: Hall, room: string, other: string)
    requires room in one.rooms && one.rooms[room] == [0] && |one.members| == 1 && one.members[0].user != other
    ensures OnJoin(one, room, other) == Enter(one, room, other)
  {
  }

  lemma TwoMembersReached(room: string, user: string, other: string) returns (h: Hall)
    requires user != other
    ensures Reached(h) && Inv(h) && Live(h, 0) && Live(h, 1)
    ensures h.members[0].room == h.members[1].room && h.members[1].user == other
  {
    var one := OneMember(room, user);
    OneMemberReached(room, user);
    ReachedNext(one, Join(room, other));
    h := OnJoin(one, room, other);
    AnotherJoins(one, room, other);
    EntersLast(one, room, other);
  }

  /** Or heard to leave as a stranger. */
  lemma StrangerLeavesReached(room: string, user: string, other: string)
    requires user != other
    ensures exists h :: Reached(h) && Live(h, 0) && h.members[0].listening && h.members[0].heard == [Left(other)]
  {
    var h := TwoMembersReached(room, user, other);
    var installed := OnInstall(h, 0, true);
    ReachedNext(h, Install(0, true));
    ReachedNext(installed, Exit(1));
    StrangerLeaves(h, 0, 1);
    assert OnExit(installed, 1).members[0].listening;
  }
}
