/**
 The streams of the messenger: what a member hears of the users in its room, what an observer hears
 of the rooms, and what such a stream comes to.
 */
module RoomStreams {

  datatype Talk = Joined(user: string) | Left(user: string)
  datatype RoomNote = Created(room: string) | Destroyed(room: string)

  // ----- Users -----

  function Next(users: set<string>, t: Talk): set<string> {
    match t
    case Joined(user) => users + {user}
    case Left(user) => users - {user}
  }

  /** The users that a stream of joins and leaves ends with. */
  function Replay(heard: seq<Talk>): set<string> {
    if heard == [] then {} else Next(Replay(heard[..|heard| - 1]), heard[|heard| - 1])
  }

  /** Someone unknown joins, or someone known leaves. */
  predicate News(users: set<string>, t: Talk) {
    match t
    case Joined(user) => user !in users
    case Left(user) => user in users
  }

  /** Nobody joins twice in a row, and nobody leaves who has not joined. */
  predicate Strict(heard: seq<Talk>) {
    forall i :: 0 <= i < |heard| ==> News(Replay(heard[..i]), heard[i])
  }

  /** Nobody leaves who has not joined. */
  predicate OnlyKnownLeave(heard: seq<Talk>) {
    forall i :: 0 <= i < |heard| && heard[i].Left? ==> heard[i].user in Replay(heard[..i])
  }

  lemma ReplaySnoc(heard: seq<Talk>, t: Talk)
    ensures Replay(heard + [t]) == Next(Replay(heard), t)
  {
    assert (heard + [t])[..|heard|] == heard;
  }

  lemma StrictSnoc(heard: seq<Talk>, t: Talk)
    ensures Strict(heard + [t]) <==> Strict(heard) && News(Replay(heard), t)
    ensures OnlyKnownLeave(heard + [t]) <==> OnlyKnownLeave(heard) && (t.Left? ==> t.user in Replay(heard))
  {
    var more := heard + [t];
    assert more[|heard|] == t && more[..|heard|] == heard;
    forall i | 0 <= i < |heard| ensures more[i] == heard[i] && more[..i] == heard[..i] {}
  }

  // ----- Rooms -----

  /** The rooms that an observer's stream ends with, if it never repeats itself. */
  datatype Known = Known(rooms: set<string>) | Confused

  function NextRooms(k: Known, n: RoomNote): Known {
    match (k, n)
    case (Known(rooms), Created(room)) => if room in rooms then Confused else Known(rooms + {room})
    case (Known(rooms), Destroyed(room)) => if room in rooms then Known(rooms - {room}) else Confused
    case _ => Confused
  }

  function ReplayRooms(told: seq<RoomNote>): Known {
    if told == [] then Known({}) else NextRooms(ReplayRooms(told[..|told| - 1]), told[|told| - 1])
  }

  lemma ReplayRoomsSnoc(told: seq<RoomNote>, n: RoomNote)
    ensures ReplayRooms(told + [n]) == NextRooms(ReplayRooms(told), n)
  {
    assert (told + [n])[..|told|] == told;
  }
}
