/**
 The rooms of the messenger over whole runs, told from the steps of the run alone: who is registered,
 who is in a room and under which name, and whose callback is set and briefed.
 */
module RoomRuns {
  import opened Common
  import opened RoomSteps
  import opened RoomStreams
  import StateMachine

  // ----- What the steps of a run say -----

  function Registers(o: nat): Step -> bool {
    (s: Step) => s.Register? && s.o == o
  }

  function Unregisters(o: nat): Step -> bool {
    (s: Step) => s == Unregister(o)
  }

  function Sets(id: nat): Step -> bool {
    (s: Step) => s == Install(id, true)
  }

  function Clears(id: nat): Step -> bool {
    (s: Step) => s == Install(id, false)
  }

  function Briefs(id: nat): Step -> bool {
    (s: Step) => s == Notify(id)
  }

  function Changes(id: nat): Step -> bool {
    (s: Step) => s.Install? && s.id == id
  }

  /** Of the times an observer registered or unregistered, the last one was to register. */
  predicate Registered(steps: seq<Step>, o: nat) {
    StateMachine.LastIs(steps, Registers(o), Unregisters(o))
  }

  /** Of the times the callback of a member was set or taken away, the last one was to set it. */
  predicate Listening(steps: seq<Step>, id: nat) {
    StateMachine.LastIs(steps, Sets(id), Clears(id))
  }

  /** A member was briefed since its callback was changed last. */
  predicate Briefed(steps: seq<Step>, id: nat) {
    StateMachine.LastIs(steps, Briefs(id), Changes(id))
  }

  /** This step of a run brought a member of this number into a room, under this name. */
  predicate EnteredAt(steps: seq<Step>, i: nat, id: nat, room: string, user: string) {
    && i < |steps| && steps[i] == Join(room, user)
    && var h := After(EMPTY, steps[..i]);
       |h.members| == id && !HasUser(h, Listed(h, room), user)
  }

  ghost predicate EnteredAs(steps: seq<Step>, id: nat, room: string, user: string) {
    exists i: nat :: EnteredAt(steps, i, id, room, user)
  }

  // ----- Each of them is what the state says -----

  predicate ObserverTold(h: Hall, steps: seq<Step>, o: nat) {
    o in h.observers <==> Registered(steps, o)
  }

  predicate MemberTold(h: Hall, steps: seq<Step>, id: nat) {
    if id < |h.members| then
      && (Live(h, id) <==> Exit(id) !in steps)
      && (h.members[id].listening <==> Listening(steps, id))
      && (h.members[id].briefed <==> Briefed(steps, id))
    else Exit(id) !in steps && !Listening(steps, id) && !Briefed(steps, id)
  }

  predicate Named(h: Hall, id: nat, room: string, user: string) {
    id < |h.members| && h.members[id].room == room && h.members[id].user == user
  }

  ghost predicate NameTold(h: Hall, steps: seq<Step>, id: nat, room: string, user: string) {
    Named(h, id, room, user) <==> EnteredAs(steps, id, room, user)
  }

  ghost predicate Told(h: Hall, steps: seq<Step>) {
    && h == After(EMPTY, steps)
    && (forall o: nat :: ObserverTold(h, steps, o))
    && (forall id: nat :: MemberTold(h, steps, id))
    && forall id: nat, room, user :: NameTold(h, steps, id, room, user)
  }

  // ----- What a step does to the members -----

  predicate Enters(h: Hall, s: Step, room: string, user: string) {
    s == Join(room, user) && !HasUser(h, Listed(h, room), user)
  }

  predicate SomeoneEnters(h: Hall, s: Step) {
    s.Join? && Enters(h, s, s.room, s.user)
  }

  lemma StepNames(h: Hall, s: Step, id: nat, room: string, user: string)
    ensures Named(Apply(h, s), id, room, user)
       <==> Named(h, id, room, user) || (id == |h.members| && Enters(h, s, room, user))
    ensures |Apply(h, s).members| == |h.members| + if SomeoneEnters(h, s) then 1 else 0
  {
    match s
    case Join(r, u) =>
      var there := Opened(h, r);
      assert HasUser(there, there.rooms[r], u) <==> HasUser(h, Listed(h, r), u);
      if SomeoneEnters(h, s) {
        assert Apply(h, s).members == Entered(h.members, Listed(h, r), r, u);
        EnteredNames(h.members, Listed(h, r), r, u, if id <= |h.members| then id else 0);
      }
    case Exit(gone) =>
    case _ =>
  }

  lemma EnteredNames(members: seq<Member>, ids: seq<nat>, room: string, user: string, id: nat)
    requires id <= |members|
    ensures var n := Entered(members, ids, room, user);
            && |n| == |members| + 1
            && (id < |members| ==> n[id].room == members[id].room && n[id].user == members[id].user)
            && n[|members|].room == room && n[|members|].user == user
            && !n[|members|].listening && !n[|members|].briefed
  {
  }

  lemma StepLive(h: Hall, s: Step, id: nat)
    requires Enabled(h, s)
    ensures Live(Apply(h, s), id) <==> (Live(h, id) && s != Exit(id)) || (id == |h.members| && SomeoneEnters(h, s))
  {
    match s
    case Join(r, u) =>
      var there := Opened(h, r);
      assert HasUser(there, there.rooms[r], u) <==> HasUser(h, Listed(h, r), u);
      if SomeoneEnters(h, s) {
        assert Apply(h, s).members == Entered(h.members, Listed(h, r), r, u);
        if id <= |h.members| { EnteredNames(h.members, Listed(h, r), r, u, id); }
      }
    case Exit(gone) =>
    case _ =>
  }

  lemma StepFlags(h: Hall, s: Step, id: nat)
    requires Enabled(h, s) && id < |Apply(h, s).members|
    ensures var now, was := Apply(h, s).members[id], id < |h.members|;
            now.listening <==> s == Install(id, true) || (s != Install(id, false) && was && h.members[id].listening)
    ensures var now, was := Apply(h, s).members[id], id < |h.members|;
            now.briefed <==> s == Notify(id) || (!Changes(id)(s) && was && h.members[id].briefed)
  {
    match s
    case Join(r, u) =>
      var there := Opened(h, r);
      assert HasUser(there, there.rooms[r], u) <==> HasUser(h, Listed(h, r), u);
      if SomeoneEnters(h, s) {
        assert Apply(h, s).members == Entered(h.members, Listed(h, r), r, u);
        if id == |h.members| { EnteredNames(h.members, Listed(h, r), r, u, id); }
      }
    case Exit(gone) =>
    case _ =>
  }

  lemma StepObservers(h: Hall, s: Step, o: nat)
    ensures o in Apply(h, s).observers <==> Registers(o)(s) || (!Unregisters(o)(s) && o in h.observers)
  {
  }

  // ----- What a step adds to a run -----

  lemma EnteredSnoc(steps: seq<Step>, s: Step, id: nat, room: string, user: string)
    ensures EnteredAs(steps + [s], id, room, user)
       <==> EnteredAs(steps, id, room, user)
            || (|After(EMPTY, steps).members| == id && Enters(After(EMPTY, steps), s, room, user))
  {
    var more := steps + [s];
    assert more[..|steps|] == steps && more[|steps|] == s;
    forall i | 0 <= i < |steps| ensures more[i] == steps[i] && more[..i] == steps[..i] {}
    if EnteredAs(steps, id, room, user) {
      var i: nat :| EnteredAt(steps, i, id, room, user);
      assert EnteredAt(more, i, id, room, user);
    }
    if EnteredAs(more, id, room, user) {
      var i: nat :| EnteredAt(more, i, id, room, user);
      assert i < |steps| ==> EnteredAt(steps, i, id, room, user);
    }
    if |After(EMPTY, steps).members| == id && Enters(After(EMPTY, steps), s, room, user) {
      assert EnteredAt(more, |steps|, id, room, user);
    }
  }

  lemma MemberSnoc(h: Hall, steps: seq<Step>, s: Step, id: nat)
    requires Enabled(h, s) && MemberTold(h, steps, id)
    ensures MemberTold(Apply(h, s), steps + [s], id)
  {
    StateMachine.LastIsSnoc(steps, s, Sets(id), Clears(id));
    StateMachine.LastIsSnoc(steps, s, Briefs(id), Changes(id));
    StepLive(h, s, id);
    StepNames(h, s, 0, "", "");
    if id < |Apply(h, s).members| { StepFlags(h, s, id); }
  }

  lemma StepTells(h: Hall, steps: seq<Step>, s: Step)
    requires Told(h, steps) && Enabled(h, s)
    ensures Told(Apply(h, s), steps + [s])
  {
    StateMachine.AfterSnoc(Apply, EMPTY, steps, s);
    forall o: nat ensures ObserverTold(Apply(h, s), steps + [s], o) {
      assert ObserverTold(h, steps, o);
      StepObservers(h, s, o);
      StateMachine.LastIsSnoc(steps, s, Registers(o), Unregisters(o));
    }
    forall id: nat ensures MemberTold(Apply(h, s), steps + [s], id) {
      assert MemberTold(h, steps, id);
      MemberSnoc(h, steps, s, id);
    }
    forall id: nat, room, user ensures NameTold(Apply(h, s), steps + [s], id, room, user) {
      assert NameTold(h, steps, id, room, user);
      StepNames(h, s, id, room, user);
      EnteredSnoc(steps, s, id, room, user);
    }
  }

  lemma RunTells(steps: seq<Step>)
    requires Runs(EMPTY, steps)
    ensures Told(After(EMPTY, steps), steps)
  {
    assert Told(EMPTY, []);
    forall h: Hall, done: seq<Step>, s: Step | Told(h, done) && Enabled(h, s)
      ensures Told(Apply(h, s), done + [s])
    {
      StepTells(h, done, s);
    }
    StateMachine.HistoryKeeps(Enabled, Apply, Told, EMPTY, steps);
  }

  // ----- Over every run -----

  /**
   After every run a member has this number, room and name if and only if a step of the run brought it
   in: a join under a name that nobody in the room had, when there were so many members before.
   */
  lemma EnteredExactly(steps: seq<Step>, id: nat, room: string, user: string)
    requires Runs(EMPTY, steps)
    ensures Named(After(EMPTY, steps), id, room, user) <==> EnteredAs(steps, id, room, user)
  {
    RunTells(steps);
    assert NameTold(After(EMPTY, steps), steps, id, room, user);
  }

  /**
   A member is listed in its room until it is let go; its callback is set, and briefed, if that is the
   last thing that the run did to it.
   */
  lemma MembersExactly(steps: seq<Step>, id: nat)
    requires Runs(EMPTY, steps) && id < |After(EMPTY, steps).members|
    ensures Live(After(EMPTY, steps), id) <==> Exit(id) !in steps
    ensures After(EMPTY, steps).members[id].listening <==> Listening(steps, id)
    ensures After(EMPTY, steps).members[id].briefed <==> Briefed(steps, id)
  {
    RunTells(steps);
    assert MemberTold(After(EMPTY, steps), steps, id);
  }

  /**
   An observer is one of those that are told if and only if it registered and did not unregister since,
   and then what it was told since comes to the rooms there are.
   */
  lemma ObserversExactly(steps: seq<Step>, o: nat)
    requires Runs(EMPTY, steps)
    ensures var h := After(EMPTY, steps);
            && (o in h.observers <==> Registered(steps, o))
            && (Registered(steps, o) ==> o in h.told && ReplayRooms(h.told[o]) == Known(h.rooms.Keys))
  {
    RunTells(steps);
    assert ObserverTold(After(EMPTY, steps), steps, o);
    RoomsOverRuns(steps);
  }

  function ToldOf(h: Hall, o: nat): seq<RoomNote> {
    if o in h.told then h.told[o] else []
  }

  /** What an observer was told only grows while it is registered, by at most one note a step. */
  lemma ToldGrows(h: Hall, s: Step, o: nat)
    requires Enabled(h, s) && (o in h.observers || !Registers(o)(s)) && (o in h.observers ==> o in h.told)
    ensures ToldOf(Apply(h, s), o) == ToldOf(h, o)
         || (o in h.observers && exists n :: ToldOf(Apply(h, s), o) == ToldOf(h, o) + [n])
  {
  }

  /** Nothing is told to an observer from when it unregisters until it registers again. */
  lemma {:induction false} NothingMoreTold(h: Hall, steps: seq<Step>, o: nat)
    requires Runs(h, steps) && o !in h.observers && forall i :: 0 <= i < |steps| ==> !Registers(o)(steps[i])
    ensures o !in After(h, steps).observers && ToldOf(After(h, steps), o) == ToldOf(h, o)
    decreases |steps|
  {
    if steps != [] {
      StepObservers(h, steps[0], o);
      ToldGrows(h, steps[0], o);
      NothingMoreTold(Apply(h, steps[0]), steps[1..], o);
    }
  }

  lemma {:induction false} RosterCreates(order: seq<string>)
    ensures forall i :: 0 <= i < |Roster(order)| ==> Roster(order)[i].Created?
    decreases |order|
  {
    if order != [] { RosterCreates(order[..|order| - 1]); }
  }

  /** Registering tells an observer of each room there is, once, and of nothing else. */
  lemma RegisteringTells(h: Hall, o: nat, order: seq<string>)
    requires Inv(h) && Enabled(h, Register(o, order)) && o !in h.observers
    ensures var told := ToldOf(Apply(h, Register(o, order)), o);
            ReplayRooms(told) == Known(h.rooms.Keys) && forall i :: 0 <= i < |told| ==> told[i].Created?
  {
    RegisterKeeps(h, o, order);
    RosterCreates(order);
    assert ObserverOk(OnRegister(h, o, order), o);
  }
}
