/**
 Which destructions and which states the bridge link does tell in the end: exact conditions over
 runs, and runs that fail them.
 */
module LinkLimits {
  import opened Lifecycle
  import opened LinkOutlook
  import opened LinkRuns
  import opened LinkSteps

  // ----- Which destructions are told -----

  /** The proxy is on its way out: it is not the shell of its callsign, and not lost. */
  predicate Leaving(m: Link, id: nat) {
    id < |m.proxies| && !Is(m.shells, m.proxies[id].callsign, id) && id !in m.lost
  }

  lemma StaysLeaving(b: Bridge, s: Step, id: nat)
    requires Inv(b.link) && Enabled(b, s) && Leaving(b.link, id)
    ensures Leaving(Apply(b, s).link, id)
  {
    var m := b.link;
    forall c | c in m.shells ensures m.shells[c] != id && m.shells[c] < |m.proxies| {
      assert CallsignOk(m, c);
    }
  }

  lemma StaysLost(b: Bridge, s: Step, id: nat)
    requires Inv(b.link) && Enabled(b, s) && id in b.link.lost
    ensures id in Apply(b, s).link.lost
  {
    if s.RemoteDestroyed? { assert CallsignOk(b.link, s.c); }
    if s.RemoteState? { assert CallsignOk(b.link, s.c); }
    if s.Reporting? { assert CallsignOk(b.link, s.c); }
  }

  lemma {:induction false} OutForGood(b: Bridge, steps: seq<Step>, id: nat)
    requires Inv(b.link) && Runs(b, steps)
    ensures Leaving(b.link, id) ==> Leaving(After(b, steps).link, id)
    ensures id in b.link.lost ==> id in After(b, steps).link.lost
    decreases |steps|
  {
    if steps != [] {
      StepKeeps(b, steps[0]);
      if Leaving(b.link, id) { StaysLeaving(b, steps[0], id); }
      if id in b.link.lost { StaysLost(b, steps[0], id); }
      OutForGood(Apply(b, steps[0]), steps[1..], id);
    }
  }

  /**
   The destruction of a plugin with a proxy is told, by the time the job rests again, if and only
   if no earlier proxy of the same callsign was still in the destruction queue.
   */
  lemma DestroyToldExactly(b: Bridge, c: string, steps: seq<Step>)
    requires Inv(b.link) && Awake(b) && c in b.link.shells
    requires Runs(b, [RemoteDestroyed(c)] + steps) && Resting(After(b, [RemoteDestroyed(c)] + steps))
    ensures Track(After(b, [RemoteDestroyed(c)] + steps).link.log, b.link.shells[c]) == Dead
       <==> c !in b.link.destructed
  {
    var run, id := [RemoteDestroyed(c)] + steps, b.link.shells[c];
    assert run[0] == RemoteDestroyed(c) && run[1..] == steps;
    assert CallsignOk(b.link, c) && IdOk(b.link, id);
    StepKeeps(b, RemoteDestroyed(c));
    StepStaysAwake(b, RemoteDestroyed(c));
    var next := Apply(b, RemoteDestroyed(c));
    OutForGood(next, steps, id);
    RunStaysAwake(next, steps);
    RunKeeps(next, steps);
    assert IdOk(After(next, steps).link, id);
    assert id in next.link.lost <==> c in b.link.destructed;
    assert c !in b.link.destructed ==> Leaving(next.link, id);
  }

  lemma FlushQueues(m: Link, c: string)
    requires Inv(m) && c in m.shells
    ensures var n, id := OnFlush(m), m.shells[c];
            id < |m.proxies| && (id in n.lost <==> c in m.destructed) && (c !in m.destructed ==> Leaving(n, id))
  {
    var id := m.shells[c];
    assert CallsignOk(m, c) && IdOk(m, id);
    forall d | d in m.shells && m.shells[d] == id ensures d == c {
      assert CallsignOk(m, d);
    }
  }

  /** When the connection is lost, the same holds for every proxy there is. */
  lemma DisconnectToldExactly(b: Bridge, c: string, steps: seq<Step>)
    requires Inv(b.link) && Awake(b) && c in b.link.shells
    requires Runs(b, [Disconnected] + steps) && Resting(After(b, [Disconnected] + steps))
    ensures Track(After(b, [Disconnected] + steps).link.log, b.link.shells[c]) == Dead <==> c !in b.link.destructed
  {
    var run, id := [Disconnected] + steps, b.link.shells[c];
    assert run[0] == Disconnected && run[1..] == steps;
    StepKeeps(b, Disconnected);
    StepStaysAwake(b, Disconnected);
    FlushQueues(b.link, c);
    var next := Apply(b, Disconnected);
    OutForGood(next, steps, id);
    RunStaysAwake(next, steps);
    RunKeeps(next, steps);
    assert IdOk(After(next, steps).link, id);
  }

  // ----- Which states are told -----

  /** What was loaded for a proxy in the course of a run. */
  function Loads(steps: seq<Step>, id: nat): (answers: seq<State>) {
    if steps == [] then []
    else (if steps[0].Loading? && steps[0].id == id then [steps[0].answer] else []) + Loads(steps[1..], id)
  }

  /** The state that is due after such loads. */
  function DueAfter(due: State, answers: seq<State>): State {
    if answers == [] then due else Shown(answers[|answers| - 1])
  }

  /** The shell of a callsign with the state that is due for it. */
  predicate HasDue(m: Link, c: string, id: nat, due: State) {
    Is(m.shells, c, id) && id < |m.proxies| && m.proxies[id].report == due
  }

  /** A step of the worker, or an event of another callsign. */
  predicate Spares(s: Step, c: string) {
    IsWorker(s) || (!s.Disconnected? && s.c != c)
  }

  predicate AllSpare(steps: seq<Step>, c: string) {
    forall i :: 0 <= i < |steps| ==> Spares(steps[i], c)
  }

  lemma WorkerKeepsDue(b: Bridge, s: Step, c: string, id: nat, due: State)
    requires Inv(b.link) && Enabled(b, s) && IsWorker(s) && HasDue(b.link, c, id, due)
    ensures HasDue(Apply(b, s).link, c, id, DueAfter(due, Loads([s], id)))
  {
    assert CallsignOk(b.link, c);
    assert Loads([s][1..], id) == [];
    if s.Creating? { assert CallsignOk(b.link, s.c); }
    if s.Reporting? { assert CallsignOk(b.link, s.c); }
  }

  lemma OthersKeepDue(b: Bridge, s: Step, c: string, id: nat, due: State)
    requires Inv(b.link) && Enabled(b, s) && !IsWorker(s) && Spares(s, c) && HasDue(b.link, c, id, due)
    ensures HasDue(Apply(b, s).link, c, id, due) && Loads([s], id) == []
  {
    assert CallsignOk(b.link, c) && CallsignOk(b.link, s.c);
    assert Loads([s][1..], id) == [];
  }

  lemma DueAfterBoth(due: State, first: seq<State>, second: seq<State>)
    ensures DueAfter(DueAfter(due, first), second) == DueAfter(due, first + second)
  {
    if second == [] { assert first + second == first; }
  }

  lemma LoadsSplit(s: Step, steps: seq<Step>, id: nat)
    ensures Loads([s] + steps, id) == Loads([s], id) + Loads(steps, id)
  {
    assert ([s] + steps)[1..] == steps && [s][1..] == [];
  }

  lemma {:induction false} SparedKeepsDue(b: Bridge, steps: seq<Step>, c: string, id: nat, due: State)
    requires Inv(b.link) && Runs(b, steps) && AllSpare(steps, c) && HasDue(b.link, c, id, due)
    ensures HasDue(After(b, steps).link, c, id, DueAfter(due, Loads(steps, id)))
    decreases |steps|
  {
    if steps != [] {
      var s := steps[0];
      StepKeeps(b, s);
      if IsWorker(s) { WorkerKeepsDue(b, s, c, id, due); } else { OthersKeepDue(b, s, c, id, due); }
      assert steps == [s] + steps[1..];
      LoadsSplit(s, steps[1..], id);
      DueAfterBoth(due, Loads([s], id), Loads(steps[1..], id));
      SparedKeepsDue(Apply(b, s), steps[1..], c, id, DueAfter(due, Loads([s], id)));
    }
  }

  /** At rest, the state told last is the one that is due. */
  lemma DueIsTold(b: Bridge, c: string, id: nat, due: State)
    requires Inv(b.link) && Awake(b) && Resting(b) && HasDue(b.link, c, id, due)
    ensures PhaseOf(About(b.link.log, id)) == Alive(due)
  {
    assert CallsignOk(b.link, c) && IdOk(b.link, id) && Settled(b.link, c);
    TrackedIsWellTold(b.link.log, id);
  }

  /** What was loaded last is the state, or nothing was and the state differs from the one told or is due. */
  predicate Prevails(p: Proxy, state: State, answers: seq<State>) {
    if answers == [] then p.state != state || p.report == state else Shown(answers[|answers| - 1]) == state
  }

  /**
   A state event for a proxy, and whatever run follows, until the worker rests, in which nothing else
   happens to the callsign: the state is told last if and only if another state had been told last or
   it was due anyway, provided that the proxy is not loaded in that run; and otherwise, if and only if
   it is what was loaded last.
   */
  lemma StateToldExactly(b: Bridge, c: string, state: State, steps: seq<Step>)
    requires Inv(b.link) && Awake(b) && c in b.link.shells && b.link.shells[c] < |b.link.proxies| && state != Unset
    requires Runs(b, [RemoteState(c, state)] + steps) && AllSpare(steps, c)
    requires Resting(After(b, [RemoteState(c, state)] + steps))
    ensures
      PhaseOf(About(After(b, [RemoteState(c, state)] + steps).link.log, b.link.shells[c])) == Alive(state)
      <==> Prevails(b.link.proxies[b.link.shells[c]], state, Loads(steps, b.link.shells[c]))
  {
    var run, id := [RemoteState(c, state)] + steps, b.link.shells[c];
    assert run[0] == RemoteState(c, state) && run[1..] == steps;
    assert CallsignOk(b.link, c);
    StepKeeps(b, RemoteState(c, state));
    StepStaysAwake(b, RemoteState(c, state));
    var next := Apply(b, RemoteState(c, state));
    var due := next.link.proxies[id].report;
    SparedKeepsDue(next, steps, c, id, due);
    RunKeeps(next, steps);
    RunStaysAwake(next, steps);
    DueIsTold(After(next, steps), c, id, DueAfter(due, Loads(steps, id)));
  }

  lemma NothingLoads(b: Bridge, s: Step, id: nat)
    requires Inv(b.link) && Enabled(b, s) && id < |b.link.proxies| && NotLoading(b.link, id)
    ensures id < |Apply(b, s).link.proxies| && NotLoading(Apply(b, s).link, id) && Loads([s], id) == []
  {
    assert Loads([s][1..], id) == [];
    if IsWorker(s) { StaysUnloaded(b, s, id); }
  }

  /** A proxy is loaded only while the worker is about to tell that it is created, whatever happens. */
  lemma {:induction false} LoadedOnlyWhenNew(b: Bridge, steps: seq<Step>, id: nat)
    requires Inv(b.link) && Runs(b, steps) && id < |b.link.proxies| && NotLoading(b.link, id)
    ensures Loads(steps, id) == []
    decreases |steps|
  {
    if steps != [] {
      StepKeeps(b, steps[0]);
      NothingLoads(b, steps[0], id);
      assert steps == [steps[0]] + steps[1..];
      LoadsSplit(steps[0], steps[1..], id);
      LoadedOnlyWhenNew(Apply(b, steps[0]), steps[1..], id);
    }
  }

  // ----- States of plugins that wait -----

  /** It still waits, or its proxy was made in the meantime and what was loaded is due. */
  predicate WaitsOrDue(m: Link, c: string, made: nat, steps: seq<Step>) {
    || c in m.created
    || (c in m.shells && m.shells[c] >= made
        && HasDue(m, c, m.shells[c], DueAfter(Unset, Loads(steps, m.shells[c]))))
  }

  lemma StillWaits(b: Bridge, s: Step, c: string)
    requires Inv(b.link) && Enabled(b, s) && Spares(s, c) && c in b.link.created && s != Creating(c)
    ensures c in Apply(b, s).link.created && |Apply(b, s).link.proxies| >= |b.link.proxies|
    ensures forall id: nat :: id >= |b.link.proxies| ==> Loads([s], id) == []
  {
    assert forall id: nat :: Loads([s][1..], id) == [];
  }

  lemma NowDue(b: Bridge, c: string)
    requires Inv(b.link) && Enabled(b, Creating(c))
    ensures HasDue(Apply(b, Creating(c)).link, c, |b.link.proxies|, Unset)
    ensures Loads([Creating(c)], |b.link.proxies|) == []
  {
    assert CallsignOk(b.link, c);
    assert Loads([Creating(c)][1..], |b.link.proxies|) == [];
  }

  lemma {:induction false} WaitingIsLoaded(b: Bridge, steps: seq<Step>, c: string)
    requires Inv(b.link) && Runs(b, steps) && AllSpare(steps, c) && c in b.link.created
    ensures WaitsOrDue(After(b, steps).link, c, |b.link.proxies|, steps)
    decreases |steps|
  {
    if steps != [] {
      var s, rest, made := steps[0], steps[1..], |b.link.proxies|;
      var n := After(b, steps).link;
      assert steps == [s] + rest;
      StepKeeps(b, s);
      if s == Creating(c) {
        NowDue(b, c);
        SparedKeepsDue(Apply(b, s), rest, c, made, Unset);
        LoadsSplit(s, rest, made);
        assert [] + Loads(rest, made) == Loads(rest, made);
      } else {
        StillWaits(b, s, c);
        WaitingIsLoaded(Apply(b, s), rest, c);
        if c in n.shells {
          LoadsSplit(s, rest, n.shells[c]);
          assert n.shells[c] >= made ==> [] + Loads(rest, n.shells[c]) == Loads(rest, n.shells[c]);
        }
      }
    }
  }

  /**
   A state event for a plugin that still waits changes nothing.  When the worker rests, the plugin has
   a proxy, made since, and the state told last of it is what was loaded last.
   */
  lemma WaitingStateToldExactly(b: Bridge, c: string, state: State, steps: seq<Step>)
    requires Inv(b.link) && Awake(b) && c in b.link.created && state != Unset
    requires Runs(b, [RemoteState(c, state)] + steps) && AllSpare(steps, c)
    requires Resting(After(b, [RemoteState(c, state)] + steps))
    ensures Apply(b, RemoteState(c, state)) == b
    ensures var n := After(b, [RemoteState(c, state)] + steps).link;
            && c in n.shells && n.shells[c] >= |b.link.proxies|
            && PhaseOf(About(n.log, n.shells[c])) == Alive(DueAfter(Unset, Loads(steps, n.shells[c])))
  {
    var run := [RemoteState(c, state)] + steps;
    assert run[0] == RemoteState(c, state) && run[1..] == steps;
    assert CallsignOk(b.link, c);
    WaitingIsLoaded(b, steps, c);
    RunKeeps(b, steps);
    RunStaysAwake(b, steps);
    var n := After(b, steps);
    DueIsTold(n, c, n.link.shells[c], DueAfter(Unset, Loads(steps, n.link.shells[c])));
  }

  // ----- Both can fail -----

  ghost predicate Reached(b: Bridge) {
    exists steps :: Leads(Start(), steps, b)
  }

  lemma Reaches(b: Bridge, s: Step, next: Bridge)
    requires Reached(b) && Inv(b.link) && Enabled(b, s) && Apply(b, s) == next
    ensures Reached(next) && Inv(next.link)
  {
    var steps :| Leads(Start(), steps, b);
    OneStepLeads(b, s);
    LeadsOn(Start(), steps, b, [s], next);
    assert Leads(Start(), steps + [s], next);
    StepKeeps(b, s);
  }

  /** The worker has made the first proxy and is about to tell of it. */
  function FirstProxy(c: string): Bridge {
    Bridge(Link(map[], map[c := 0], map[], [Proxy(c, 1, Unset, Unset, true)], [Created(0)], true, map[c := 1], {}),
           Creates, false)
  }

  lemma ReachFirstProxy(c: string)
    ensures Reached(FirstProxy(c)) && Inv(FirstProxy(c).link)
  {
    assert Reached(Start()) by { assert Leads(Start(), [], Start()); }
    var waiting := INITIAL.(created := map[c := 1], remote := map[c := 1]);
    assert map[][c := 1] == map[c := 1];
    Reaches(Start(), RemoteCreated(c, 1), Bridge(waiting, Idle, true));
    Reaches(Bridge(waiting, Idle, true), Starting, Bridge(waiting, Destroys, false));
    Reaches(Bridge(waiting, Destroys, false), DestroysDone, Bridge(waiting, Creates, false));
    FirstCreating(c, waiting);
    Reaches(Bridge(waiting, Creates, false), Creating(c), FirstProxy(c));
  }

  lemma FirstCreating(c: string, waiting: Link)
    requires waiting == INITIAL.(created := map[c := 1], remote := map[c := 1])
    ensures TakeCreated(waiting, c) == FirstProxy(c).link
  {
    assert Removed(waiting.created, c) == map[];
  }

  // The plugin goes, comes back and goes again while the worker is still in its second loop.

  function Queued(c: string, created: map<string, nat>, submitted: bool, telling: bool): Bridge {
    Bridge(Link(created, map[], map[c := 0], [Proxy(c, 1, Unset, Unset, false)], [Created(0)], telling, created, {}),
           Creates, submitted)
  }

  lemma ReachQueued(c: string)
    ensures Reached(Queued(c, map[c := 2], true, false)) && Inv(Queued(c, map[c := 2], true, false).link)
  {
    ReachFirstProxy(c);
    var m := FirstProxy(c).link;
    assert Removed(m.shells, c) == map[] && Removed(m.remote, c) == map[];
    assert map[][c := 0] == map[c := 0] && map[][c := 2] == map[c := 2];
    Reaches(FirstProxy(c), RemoteDestroyed(c), Queued(c, map[], true, true));
    Reaches(Queued(c, map[], true, true), RemoteCreated(c, 2), Queued(c, map[c := 2], true, true));
    Reaches(Queued(c, map[c := 2], true, true), Calling, Queued(c, map[c := 2], true, false));
  }

  function SecondProxy(c: string): Bridge {
    Bridge(Link(map[], map[c := 1], map[c := 0],
                [Proxy(c, 1, Unset, Unset, false), Proxy(c, 2, Unset, Unset, true)], [Created(0), Created(1)],
                true, map[c := 2], {}), Creates, true)
  }

  lemma SecondCreating(c: string)
    ensures TakeCreated(Queued(c, map[c := 2], true, false).link, c) == SecondProxy(c).link
  {
    var m := Queued(c, map[c := 2], true, false).link;
    assert Removed(m.created, c) == map[];
    assert map[][c := 1] == map[c := 1];
    assert [Created(0)] + [Created(1)] == [Created(0), Created(1)];
  }

  /** The second proxy is lost, and the worker goes on. */
  function AfterLoss(c: string, destructed: map<string, nat>, log: seq<Note>, telling: bool,
      stage: Stage, submitted: bool): Bridge
  {
    Bridge(Link(map[], map[], destructed, [Proxy(c, 1, Unset, Unset, false), Proxy(c, 2, Unset, Unset, false)],
                log, telling, map[], {1}), stage, submitted)
  }

  lemma ReachSecondProxy(c: string)
    ensures Reached(SecondProxy(c)) && Inv(SecondProxy(c).link)
  {
    ReachQueued(c);
    SecondCreating(c);
    Reaches(Queued(c, map[c := 2], true, false), Creating(c), SecondProxy(c));
  }

  lemma ReachLoss(c: string)
    ensures Reached(AfterLoss(c, map[c := 0], [Created(0), Created(1)], true, Creates, true))
    ensures Inv(AfterLoss(c, map[c := 0], [Created(0), Created(1)], true, Creates, true).link)
  {
    ReachSecondProxy(c);
    var m := SecondProxy(c).link;
    assert Removed(m.shells, c) == map[] && Removed(m.remote, c) == map[];
    Reaches(SecondProxy(c), RemoteDestroyed(c),
            AfterLoss(c, map[c := 0], [Created(0), Created(1)], true, Creates, true));
  }

  lemma ReachSecondRun(c: string)
    ensures Reached(AfterLoss(c, map[c := 0], [Created(0), Created(1)], false, Destroys, false))
    ensures Inv(AfterLoss(c, map[c := 0], [Created(0), Created(1)], false, Destroys, false).link)
  {
    ReachLoss(c);
    var queue, log := map[c := 0], [Created(0), Created(1)];
    Reaches(AfterLoss(c, queue, log, true, Creates, true), Calling, AfterLoss(c, queue, log, false, Creates, true));
    Reaches(AfterLoss(c, queue, log, false, Creates, true), CreatesDone,
            AfterLoss(c, queue, log, false, Reports, true));
    Reaches(AfterLoss(c, queue, log, false, Reports, true), ReportsDone, AfterLoss(c, queue, log, false, Idle, true));
    Reaches(AfterLoss(c, queue, log, false, Idle, true), Starting, AfterLoss(c, queue, log, false, Destroys, false));
  }

  lemma ReachDestroyed(c: string)
    ensures Reached(AfterLoss(c, map[], [Created(0), Created(1), Destroyed(0)], false, Destroys, false))
    ensures Inv(AfterLoss(c, map[], [Created(0), Created(1), Destroyed(0)], false, Destroys, false).link)
  {
    ReachSecondRun(c);
    var log := [Created(0), Created(1), Destroyed(0)];
    assert Removed(map[c := 0], c) == map[];
    assert [Created(0), Created(1)] + [Destroyed(0)] == log;
    Reaches(AfterLoss(c, map[c := 0], [Created(0), Created(1)], false, Destroys, false), Destroying(c),
            AfterLoss(c, map[], log, true, Destroys, false));
    Reaches(AfterLoss(c, map[], log, true, Destroys, false), Calling, AfterLoss(c, map[], log, false, Destroys, false));
  }

  lemma ReachRest(c: string)
    ensures Reached(AfterLoss(c, map[], [Created(0), Created(1), Destroyed(0)], false, Idle, false))
  {
    ReachDestroyed(c);
    var log := [Created(0), Created(1), Destroyed(0)];
    Reaches(AfterLoss(c, map[], log, false, Destroys, false), DestroysDone,
            AfterLoss(c, map[], log, false, Creates, false));
    Reaches(AfterLoss(c, map[], log, false, Creates, false), CreatesDone,
            AfterLoss(c, map[], log, false, Reports, false));
    Reaches(AfterLoss(c, map[], log, false, Reports, false), ReportsDone, AfterLoss(c, map[], log, false, Idle, false));
  }

  /** A plugin is gone, the job rests, and the callback was never told that its proxy is destroyed. */
  lemma DestroyCanBeLost(c: string)
    ensures exists b, id: nat ::
      Reached(b) && Resting(b) && b.link.remote == map[] && Track(b.link.log, id) == Alive(Unset)
  {
    ReachRest(c);
    var b := AfterLoss(c, map[], [Created(0), Created(1), Destroyed(0)], false, Idle, false);
    var one, two := [Created(0)], [Created(0), Created(1)];
    assert one[..0] == [] && two[..1] == one && b.link.log[..2] == two;
    assert Track(two, 1) == Alive(Unset) && Track(b.link.log, 1) == Alive(Unset);
  }

  // What the worker tells in the end after an event.

  ghost predicate Quietly(b: Bridge, n: Bridge) {
    exists steps :: AllWorker(steps) && Leads(b, steps, n)
  }

  lemma GoesOn(b: Bridge, n: Bridge, s: Step, next: Bridge)
    requires Quietly(b, n) && IsWorker(s) && Enabled(n, s) && Apply(n, s) == next
    ensures Quietly(b, next)
  {
    var steps :| AllWorker(steps) && Leads(b, steps, n);
    OneStepLeads(n, s);
    LeadsOn(b, steps, n, [s], next);
    assert AllWorker(steps + [s]);
  }

  /** After the event the worker comes to rest by itself, having told this state of the proxy last. */
  ghost predicate EndsTelling(b: Bridge, e: Step, id: nat, told: State) {
    Enabled(b, e) && exists n :: Quietly(Apply(b, e), n) && Resting(n) && PhaseOf(About(n.link.log, id)) == Alive(told)
  }

  function Shell(c: string, state: State, report: State, log: seq<Note>, telling: bool,
      stage: Stage, submitted: bool): Bridge
  {
    Bridge(Link(map[], map[c := 0], map[], [Proxy(c, 1, state, report, true)], log, telling, map[c := 1], {}),
           stage, submitted)
  }

  /** From the end of the third loop, with the job submitted, through a run that has nothing to do. */
  lemma EmptyRun(b: Bridge, c: string, state: State, log: seq<Note>)
    requires state != Unset && Quietly(b, Shell(c, state, state, log, true, Reports, true))
    ensures Quietly(b, Shell(c, state, state, log, false, Idle, false))
  {
    GoesOn(b, Shell(c, state, state, log, true, Reports, true), Calling,
           Shell(c, state, state, log, false, Reports, true));
    GoesOn(b, Shell(c, state, state, log, false, Reports, true), ReportsDone,
           Shell(c, state, state, log, false, Idle, true));
    GoesOn(b, Shell(c, state, state, log, false, Idle, true), Starting,
           Shell(c, state, state, log, false, Destroys, false));
    GoesOn(b, Shell(c, state, state, log, false, Destroys, false), DestroysDone,
           Shell(c, state, state, log, false, Creates, false));
    GoesOn(b, Shell(c, state, state, log, false, Creates, false), CreatesDone,
           Shell(c, state, state, log, false, Reports, false));
    GoesOn(b, Shell(c, state, state, log, false, Reports, false), ReportsDone,
           Shell(c, state, state, log, false, Idle, false));
  }

  lemma ToldTwice(log: seq<Note>, told: State)
    requires |log| > 0 && log[|log| - 1] == Reported(0, told)
    ensures PhaseOf(About(log, 0)) == Alive(told)
  {
    assert log == log[..|log| - 1] + [Reported(0, told)];
    AboutSnoc(log[..|log| - 1], Reported(0, told), 0);
  }

  // The plugin is deactivated and active again before the worker runs.

  lemma ReachDue(c: string)
    ensures Reached(Shell(c, Unset, Activated, [Created(0)], false, Reports, true))
    ensures Inv(Shell(c, Unset, Activated, [Created(0)], false, Reports, true).link)
  {
    ReachFirstProxy(c);
    var log := [Created(0)];
    Reaches(FirstProxy(c), Calling, Shell(c, Unset, Unset, log, false, Creates, false));
    Reaches(Shell(c, Unset, Unset, log, false, Creates, false), CreatesDone,
            Shell(c, Unset, Unset, log, false, Reports, false));
    Reaches(Shell(c, Unset, Unset, log, false, Reports, false), RemoteState(c, Activated),
            Shell(c, Unset, Activated, log, false, Reports, true));
  }

  lemma ReachDeactivated(c: string)
    ensures Reached(Shell(c, Activated, Deactivated, [Created(0), Reported(0, Activated)], true, Reports, true))
  {
    ReachDue(c);
    var log := [Created(0), Reported(0, Activated)];
    assert [Created(0)] + [Reported(0, Activated)] == log;
    Reaches(Shell(c, Unset, Activated, [Created(0)], false, Reports, true), Reporting(c),
            Shell(c, Activated, Activated, log, true, Reports, true));
    Reaches(Shell(c, Activated, Activated, log, true, Reports, true), RemoteState(c, Deactivated),
            Shell(c, Activated, Deactivated, log, true, Reports, true));
  }

  /** The state of the last event can stay untold: the job tells the one before it. */
  lemma StateCanBeMissed(c: string)
    ensures exists b :: Reached(b) && EndsTelling(b, RemoteState(c, Activated), 0, Deactivated)
  {
    ReachDeactivated(c);
    var log := [Created(0), Reported(0, Activated)];
    var more := [Created(0), Reported(0, Activated), Reported(0, Deactivated)];
    var b := Shell(c, Activated, Deactivated, log, true, Reports, true);
    assert Apply(b, RemoteState(c, Activated)) == b;
    assert Quietly(b, b) by { assert AllWorker([]) && Leads(b, [], b); }
    GoesOn(b, b, Calling, Shell(c, Activated, Deactivated, log, false, Reports, true));
    assert log + [Reported(0, Deactivated)] == more;
    GoesOn(b, Shell(c, Activated, Deactivated, log, false, Reports, true), Reporting(c),
           Shell(c, Deactivated, Deactivated, more, true, Reports, true));
    EmptyRun(b, c, Deactivated, more);
    ToldTwice(more, Deactivated);
  }

  // The plugin is activated while its proxy is loaded, and an older answer arrives after that.

  lemma StaleLoad(c: string, b: Bridge)
    requires b == Shell(c, Unset, Activated, [Created(0)], true, Creates, true)
    ensures Quietly(b, Shell(c, Unset, Deactivated, [Created(0)], false, Reports, true))
  {
    var log := [Created(0)];
    assert Quietly(b, b) by { assert AllWorker([]) && Leads(b, [], b); }
    GoesOn(b, b, Loading(0, Deactivated), Shell(c, Unset, Deactivated, log, true, Creates, true));
    GoesOn(b, Shell(c, Unset, Deactivated, log, true, Creates, true), Calling,
           Shell(c, Unset, Deactivated, log, false, Creates, true));
    GoesOn(b, Shell(c, Unset, Deactivated, log, false, Creates, true), CreatesDone,
           Shell(c, Unset, Deactivated, log, false, Reports, true));
  }

  /** The state of the last event can be overwritten by what Load fetched before it. */
  lemma StaleLoadWins(c: string)
    ensures Reached(FirstProxy(c)) && EndsTelling(FirstProxy(c), RemoteState(c, Activated), 0, Deactivated)
  {
    ReachFirstProxy(c);
    var log, more := [Created(0)], [Created(0), Reported(0, Deactivated)];
    var b := Shell(c, Unset, Activated, log, true, Creates, true);
    assert Apply(FirstProxy(c), RemoteState(c, Activated)) == b;
    StaleLoad(c, b);
    assert log + [Reported(0, Deactivated)] == more;
    GoesOn(b, Shell(c, Unset, Deactivated, log, false, Reports, true), Reporting(c),
           Shell(c, Deactivated, Deactivated, more, true, Reports, true));
    EmptyRun(b, c, Deactivated, more);
    ToldTwice(more, Deactivated);
  }
}
