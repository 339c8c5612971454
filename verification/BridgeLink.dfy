/**
 The link of the bridge as it is built: shell proxies, the three maps, the remote events and the
 worker job that drains them, leaving its lock around every callback.
 */
module BridgeLink {
  import opened Common
  import opened Lifecycle
  import opened LinkAnswers
  import opened LinkOutlook
  import opened LinkRuns
  import opened LinkSteps

  class ShellProxy {
    const callsign: string
    const source: nat
    var linked: bool
    var state: State
    var report: State

    constructor (source: nat, callsign: string)
      ensures Value() == Proxy(callsign, source, Unset, Unset, true)
    {
      this.source, this.callsign := source, callsign;
      linked, state, report := true, Unset, Unset;
    }

    function Value(): Proxy
      reads this
    {
      Proxy(callsign, source, state, report, linked)
    }

    method Unlink()
      modifies this
      ensures Value() == old(Value()).(linked := false)
    {
      if linked { linked := false; }
    }

    method Activate() returns (changed: bool)
      modifies this
      ensures Value() == Turned(old(Value()), Activated) && changed == (old(state) != Activated)
    {
      changed := false;
      if state != Activated {
        report := Activated;
        changed := true;
      }
    }

    method Deactivate() returns (changed: bool)
      modifies this
      ensures Value() == Turned(old(Value()), Deactivated) && changed == (old(state) != Deactivated)
    {
      changed := false;
      if state != Deactivated {
        report := Deactivated;
        changed := true;
      }
    }

    method BecomeUnavailable() returns (changed: bool)
      modifies this
      ensures Value() == Turned(old(Value()), Unavailable) && changed == (old(state) != Unavailable)
    {
      changed := false;
      if state != Unavailable {
        report := Unavailable;
        changed := true;
      }
    }

    /** The second half of Load: the state that the source answered is taken over. */
    method Take(answer: State)
      modifies this
      ensures Value() == old(Value()).(report := Shown(answer))
    {
      if answer != Activated && answer != Unavailable {
        report := Deactivated;
      } else {
        report := answer;
      }
    }

    method Report() returns (action: Option<State>)
      modifies this
      ensures Value() == old(Value()).(state := old(report))
      ensures action == if old(report) != old(state) then Some(old(report)) else None
    {
      action := None;
      if report != state {
        state := report;
        action := Some(report);
      }
    }
  }

  function Values(table: seq<ShellProxy>): (v: seq<Proxy>)
    reads table
    ensures |v| == |table|
  {
    seq(|table|, i requires 0 <= i < |table| reads table => table[i].Value())
  }

  /** The entries of a map are numbers of proxies made so far. */
  predicate InRange(entries: map<string, nat>, n: nat) {
    forall c :: c in entries ==> entries[c] < n
  }

  class Link {
    var created: map<string, nat>
    var externalShells: map<string, nat>
    var destructed: map<string, nat>
    var table: seq<ShellProxy>
    var submitted: bool
    ghost var log: seq<Note>
    ghost var telling: bool
    var remote: map<string, nat>
    ghost var lost: set<nat>
    ghost var stage: Stage

    ghost function View(): LinkSteps.Link
      reads this, table
    {
      LinkSteps.Link(created, externalShells, destructed, Values(table), log, telling, remote, lost)
    }

    /** The state of the machine that the link is in. */
    ghost function Now(): Bridge
      reads this, table
    {
      Bridge(View(), stage, submitted)
    }

    predicate Valid()
      reads this
    {
      Distinct(table) && InRange(externalShells, |table|)
    }

    constructor ()
      ensures Valid() && Now() == Start() && table == []
    {
      created, externalShells, destructed, table := map[], map[], map[], [];
      submitted, log, telling, remote, lost, stage := false, [], false, map[], {}, Idle;
    }

    // ----- Remote events -----

    method Created(c: string, source: nat)
      requires Valid()
      modifies this`created, this`submitted, this`remote
      ensures Valid() && Now() == Apply(old(Now()), RemoteCreated(c, source))
      ensures submitted && created == if c in old(created) then old(created) else old(created)[c := source]
    {
      if c !in created { created := created[c := source]; }
      submitted := true;
      remote := remote[c := source];
    }

    method UnlinkProxy(id: nat)
      requires id < |table| && Distinct(table)
      modifies table[id]
      ensures Values(table) == With(old(Values(table)), id, Unlinked)
    {
      table[id].Unlink();
    }

    /** A shell is unlinked and put into the destruction queue. */
    method QueueShell(c: string)
      requires Valid() && c in externalShells
      modifies this`destructed, this`lost, table
      ensures Valid() && View() == Queue(old(View()), c)
    {
      var id := externalShells[c];
      UnlinkProxy(id);
      if c !in destructed {
        destructed := destructed[c := id];
      } else {
        lost := lost + {id};
      }
    }

    method RetireShell(c: string)
      requires Valid() && c in externalShells
      modifies this`externalShells, this`destructed, this`lost, table
      ensures Valid() && View() == Retire(old(View()), c)
    {
      QueueShell(c);
      externalShells := externalShells - {c};
    }

    method Destroy(c: string)
      requires Valid()
      modifies this`created, this`externalShells, this`destructed, this`lost, this`submitted, this`remote, table
      ensures Valid() && Now() == Apply(old(Now()), RemoteDestroyed(c))
    {
      remote := remote - {c};
      if c in created {
        created := created - {c};
      } else if c in externalShells {
        RetireShell(c);
      }
      submitted := true;
    }

    method Turn(id: nat, state: State) returns (changed: bool)
      requires id < |table| && Distinct(table) && state != Unset
      modifies table[id]
      ensures Values(table) == With(old(Values(table)), id, (p: Proxy) => Turned(p, state))
      ensures changed == (old(Values(table)[id].state) != state)
    {
      match state
      case Activated => changed := table[id].Activate();
      case Deactivated => changed := table[id].Deactivate();
      case Unavailable => changed := table[id].BecomeUnavailable();
    }

    /** Activated, Deactivated and Unavailable, by the state they bring. */
    method StateChanged(c: string, state: State)
      requires Valid() && state != Unset
      modifies this`submitted, table
      ensures Valid() && Now() == Apply(old(Now()), RemoteState(c, state))
      ensures submitted
         <==> old(submitted) || (c in externalShells && state != old(Values(table)[externalShells[c]].state))
    {
      var change := false;
      if c in externalShells {
        change := Turn(externalShells[c], state);
      }
      if change { submitted := true; }
    }

    method Flush()
      requires Valid()
      modifies this`created, this`externalShells, this`destructed, this`lost, this`submitted, this`remote, table
      ensures Valid() && Now() == Apply(old(Now()), Disconnected)
      ensures created == map[] && externalShells == map[] && (submitted <==> old(submitted) || destructed != map[])
    {
      EmptyMaps();
      var dispatchNeeded := destructed != map[];
      if dispatchNeeded { submitted := true; }
    }

    /** The locked part of Flush. */
    method EmptyMaps()
      requires Valid()
      modifies this`created, this`externalShells, this`destructed, this`lost, this`remote, table
      ensures Valid() && View() == OnFlush(old(View()))
    {
      QueueShells();
      created := map[];
      externalShells, remote := map[], map[];
    }

    /** The loop of Flush. */
    method QueueShells()
      requires Valid()
      modifies this`destructed, this`lost, table
      ensures Valid() && View() == Queuing(old(View()), externalShells.Keys)
    {
      ghost var before := View();
      var todo := externalShells.Keys;
      ghost var gone: set<string> := {};
      QueuingNone(before, gone);
      while todo != {}
        invariant gone + todo == externalShells.Keys && gone !! todo
        invariant View() == Queuing(before, gone)
      {
        var c :| c in todo;
        QueuingOne(before, gone, c);
        QueueShell(c);
        gone, todo := gone + {c}, todo - {c};
      }
      assert gone == externalShells.Keys;
    }

    // ----- Locked segments of the worker job -----

    /** The queue gives up an entry; the lock is left to tell of it. */
    method PopDestructed(c: string)
      requires Valid() && c in destructed
      modifies this`destructed, this`log, this`telling
      ensures Valid() && Now() == Apply(old(Now()), Destroying(c))
    {
      log := log + [Destroyed(destructed[c])];
      destructed := destructed - {c};
      telling := true;
    }

    /** A waiting plugin gets its proxy; the lock is left to load it and to tell of it. */
    method MakeProxy(c: string) returns (newEntry: ShellProxy)
      requires Valid() && c in created && c !in externalShells
      modifies this`created, this`externalShells, this`table, this`log, this`telling
      ensures Valid() && Now() == Apply(old(Now()), Creating(c))
      ensures fresh(newEntry) && table == old(table) + [newEntry]
    {
      newEntry := new ShellProxy(created[c], c);
      ghost var before := Values(table);
      externalShells := externalShells[c := |table|];
      log := log + [Note.Created(|table|)];
      created := created - {c};
      table := table + [newEntry];
      telling := true;
      assert Values(table) == before + [newEntry.Value()];
    }

    /** What Load fetched is written, without the lock of the link. */
    method WriteReport(newEntry: ShellProxy, answer: State)
      requires Valid() && |table| > 0 && newEntry == table[|table| - 1]
      modifies newEntry
      ensures Valid() && Now() == Apply(old(Now()), Loading(|table| - 1, answer))
    {
      newEntry.Take(answer);
    }

    /** A shell is asked for a report; the lock is left when there is one. */
    method AskReport(c: string) returns (action: Option<State>)
      requires Valid() && c in externalShells
      modifies this`log, this`telling, table
      ensures Valid() && Now() == Apply(old(Now()), Reporting(c))
      ensures action.None? <==> Settled(old(View()), c)
      ensures action.None? ==> Now() == old(Now())
    {
      var id := externalShells[c];
      ghost var before := Values(table);
      action := table[id].Report();
      if action.Some? {
        assert Values(table) == With(before, id, Caught);
        log := log + [Reported(id, action.value)];
        telling := true;
      } else {
        assert Values(table) == before;
      }
    }

    // ----- The windows in which the lock is left -----

    /** An event comes, if it can: the far side creates only what it lacks and destroys only what it has. */
    method Happen(e: Step) returns (happened: bool)
      requires Valid() && !IsWorker(e)
      modifies this`created, this`externalShells, this`destructed, this`lost, this`submitted, this`remote, table
      ensures Valid() && happened == Enabled(old(Now()), e)
      ensures Now() == if happened then Apply(old(Now()), e) else old(Now())
    {
      happened := true;
      match e
      case RemoteCreated(c, source) => if c !in remote { Created(c, source); } else { happened := false; }
      case RemoteDestroyed(c) => if c in remote { Destroy(c); } else { happened := false; }
      case RemoteState(c, state) => if state != Unset { StateChanged(c, state); } else { happened := false; }
      case Disconnected => Flush();
    }

    /** Any number of events come while the lock is left. */
    method Window(script: seq<seq<Step>>) returns (rest: seq<seq<Step>>, ghost trace: seq<Step>)
      requires Valid() && AllEvents(script)
      modifies this`created, this`externalShells, this`destructed, this`lost, this`submitted, this`remote, table
      ensures Valid() && Leads(old(Now()), trace, Now()) && Undecided(old(Now()), Now())
      ensures AllEvents(rest) && |rest| <= |script| && NoLoads(trace)
      ensures script == [] ==> trace == [] && Now() == old(Now())
      ensures script != [] ==> |rest| < |script|
    {
      rest, trace := [], [];
      if script != [] {
        rest := script[1..];
        var events := script[0];
        ghost var before := Now();
        for i := 0 to |events|
          invariant Valid() && Leads(before, trace, Now()) && Undecided(before, Now()) && NoLoads(trace)
        {
          ghost var now := Now();
          var happened := Happen(events[i]);
          if happened {
            EventUndecided(now, events[i]);
            OneStepLeads(now, events[i]);
            LeadsOn(before, trace, now, [events[i]], Now());
            trace := trace + [events[i]];
          }
        }
      }
    }

    // ----- The worker job -----

    /** The callback is called while events come before and after it; then the lock is taken again. */
    method Call(script: seq<seq<Step>>) returns (rest: seq<seq<Step>>, ghost trace: seq<Step>)
      requires Valid() && AllEvents(script) && telling
      modifies this`created, this`externalShells, this`destructed, this`lost
      modifies this`submitted, this`remote, this`telling, table
      ensures Valid() && Leads(old(Now()), trace, Now()) && stage == old(stage) && !telling
      ensures AllEvents(rest) && |rest| <= |script| && NoLoads(trace)
      ensures script != [] ==> |rest| < |script|
      ensures script == [] ==> trace == [Calling] && Now() == Apply(old(Now()), Calling)
    {
      ghost var before := Now();
      ghost var first, second;
      rest, first := Window(script);
      ghost var middle := Now();
      telling := false;
      ghost var after := Now();
      OneStepLeads(middle, Calling);
      LeadsOn(before, first, middle, [Calling], after);
      rest, second := Window(rest);
      LeadsOn(before, first + [Calling], after, second, Now());
      trace := first + [Calling] + second;
    }

    /** The same after a locked segment. */
    method CallAfter(ghost before: Bridge, ghost s: Step, script: seq<seq<Step>>)
        returns (rest: seq<seq<Step>>, ghost trace: seq<Step>)
      requires Valid() && AllEvents(script) && telling && Leads(before, [s], Now())
      modifies this`created, this`externalShells, this`destructed, this`lost
      modifies this`submitted, this`remote, this`telling, table
      ensures Valid() && Leads(before, trace, Now()) && stage == old(stage) && !telling
      ensures AllEvents(rest) && |rest| <= |script| && (!s.Loading? ==> NoLoads(trace))
      ensures script != [] ==> |rest| < |script|
      ensures script == [] ==> trace == [s, Calling] && View() == ToldAll(old(View()))
    {
      ghost var decided := Now();
      rest, trace := Call(script);
      LeadsOn(before, [s], decided, trace, Now());
      trace := [s] + trace;
    }

    /** One turn of the first loop: an entry of the queue is told to be destroyed. */
    method DestroyTurn(script: seq<seq<Step>>) returns (rest: seq<seq<Step>>, ghost trace: seq<Step>)
      requires Valid() && AllEvents(script) && stage == Destroys && !telling && destructed != map[]
      modifies this, table
      ensures Valid() && Leads(old(Now()), trace, Now()) && stage == Destroys && !telling
      ensures AllEvents(rest) && |rest| <= |script| && (script != [] ==> |rest| < |script|)
      ensures script == [] ==> AllWorker(trace) && |destructed| < |old(destructed)|
      ensures table == old(table) && NoLoads(trace)
    {
      ghost var before := Now();
      var c :| c in destructed;
      PopDestructed(c);
      OneStepLeads(before, Destroying(c));
      FewerLeft(before.link.destructed, c);
      rest, trace := CallAfter(before, Destroying(c), script);
    }

    /** The same as a continuation of what came before. */
    method Write(ghost before: Bridge, ghost sofar: seq<Step>, newEntry: ShellProxy, answer: State)
        returns (ghost trace: seq<Step>)
      requires Valid() && |table| > 0 && newEntry == table[|table| - 1] && Leads(before, sofar, Now())
      requires stage == Creates && telling && Announcing(View(), |table| - 1)
      modifies newEntry
      ensures Valid() && Leads(before, trace, Now()) && trace == sofar + [Loading(|table| - 1, answer)]
    {
      ghost var now, s := Now(), Loading(|table| - 1, answer);
      WriteReport(newEntry, answer);
      OneStepLeads(now, s);
      LeadsOn(before, sofar, now, [s], Now());
      trace := sofar + [s];
    }

    /** ShellProxy::Load: the source is asked without a lock, and what it answered is written later. */
    method Load(newEntry: ShellProxy, script: seq<seq<Step>>, stateOf: (nat, nat) -> State)
        returns (rest: seq<seq<Step>>, ghost trace: seq<Step>)
      requires Valid() && AllEvents(script) && |table| > 0 && newEntry == table[|table| - 1]
      requires stage == Creates && telling && Announcing(View(), |table| - 1)
      modifies this`created, this`externalShells, this`destructed, this`lost, this`submitted, this`remote, table
      ensures Valid() && Leads(old(Now()), trace, Now()) && Undecided(old(Now()), Now())
      ensures AllEvents(rest) && |rest| <= |script|
      ensures script == [] ==> AllWorker(trace) && created == old(created)
      ensures if old(newEntry.linked) then LoadsLast(trace, |table| - 1, stateOf(newEntry.source, |script|))
              else trace == [] && !newEntry.linked
    {
      rest, trace := script, [];
      if newEntry.linked {
        ghost var before := Now();
        var answer := stateOf(newEntry.source, |script|);
        rest, trace := Window(script);
        trace := Write(before, trace, newEntry, answer);
      }
    }

    /** Events may come before the new proxy is loaded, too. */
    method LoadLater(newEntry: ShellProxy, script: seq<seq<Step>>, stateOf: (nat, nat) -> State)
        returns (rest: seq<seq<Step>>, ghost trace: seq<Step>)
      requires Valid() && AllEvents(script) && |table| > 0 && newEntry == table[|table| - 1]
      requires stage == Creates && telling && Announcing(View(), |table| - 1)
      modifies this`created, this`externalShells, this`destructed, this`lost, this`submitted, this`remote, table
      ensures Valid() && Leads(old(Now()), trace, Now()) && Undecided(old(Now()), Now())
      ensures AllEvents(rest) && |rest| <= |script|
      ensures script == [] ==> AllWorker(trace) && created == old(created)
      ensures Honest(trace, |table| - 1, Values(table), |script|, stateOf)
    {
      ghost var before := Now();
      ghost var loading;
      rest, trace := Window(script);
      ghost var seen := Now();
      ghost var windows := |rest|;
      rest, loading := Load(newEntry, rest, stateOf);
      LoadIsHonest(loading, Values(table), windows, stateOf);
      HonestAfter(trace, loading, |table| - 1, Values(table), windows, |script|, stateOf);
      LeadsOn(before, trace, seen, loading, Now());
      trace := trace + loading;
    }

    /** A new proxy is loaded and told of. */
    method Announce(newEntry: ShellProxy, script: seq<seq<Step>>, stateOf: (nat, nat) -> State)
        returns (rest: seq<seq<Step>>, ghost trace: seq<Step>)
      requires Valid() && AllEvents(script) && |table| > 0 && newEntry == table[|table| - 1]
      requires stage == Creates && telling && Announcing(View(), |table| - 1)
      modifies this`created, this`externalShells, this`destructed, this`lost
      modifies this`submitted, this`remote, this`telling, table
      ensures Valid() && Leads(old(Now()), trace, Now()) && stage == Creates && !telling
      ensures AllEvents(rest) && |rest| <= |script| && (script != [] ==> |rest| < |script|)
      ensures script == [] ==> AllWorker(trace) && created == old(created)
      ensures Honest(trace, |table| - 1, Values(table), |script|, stateOf)
    {
      ghost var before := Now();
      ghost var loading;
      rest, loading := LoadLater(newEntry, script, stateOf);
      ghost var loaded := Now();
      rest, trace := Call(rest);
      LeadsOn(before, loading, loaded, trace, Now());
      HonestThen(loading, |table| - 1, loaded, trace, Now(), |script|, stateOf);
      trace := loading + trace;
    }

    /** One turn of the second loop: a waiting plugin gets its proxy. */
    method CreateTurn(script: seq<seq<Step>>, stateOf: (nat, nat) -> State)
        returns (rest: seq<seq<Step>>, ghost trace: seq<Step>)
      requires Valid() && AllEvents(script) && stage == Creates && !telling
      requires created != map[] && created.Keys !! externalShells.Keys
      modifies this, table
      ensures Valid() && Leads(old(Now()), trace, Now()) && stage == Creates && !telling
      ensures AllEvents(rest) && |rest| <= |script| && (script != [] ==> |rest| < |script|)
      ensures script == [] ==> AllWorker(trace) && |created| < |old(created)|
      ensures old(table) <= table && fresh(set o | o in table[|old(table)|..])
      ensures Honest(trace, |old(table)|, Values(table), |script|, stateOf)
    {
      ghost var before := Now();
      var c :| c in created;
      var newEntry := MakeProxy(c);
      ghost var made := Now();
      OneStepLeads(before, Creating(c));
      FewerLeft(before.link.created, c);
      rest, trace := Announce(newEntry, script, stateOf);
      LeadsOn(before, [Creating(c)], made, trace, Now());
      HonestAfter([Creating(c)], trace, |table| - 1, Values(table), |script|, |script|, stateOf);
      trace := [Creating(c)] + trace;
    }

    /** The job goes on to its next loop, or ends. */
    ghost method GoOn(before: Bridge, trace: seq<Step>, s: Step) returns (longer: seq<Step>)
      requires s.DestroysDone? || s.CreatesDone? || s.ReportsDone?
      requires Leads(before, trace, Now()) && Enabled(Now(), s)
      modifies this`stage
      ensures stage == NextStage(old(stage), s) && longer == trace + [s] && Leads(before, longer, Now())
    {
      ghost var now := Now();
      stage := NextStage(stage, s);
      OneStepLeads(now, s);
      LeadsOn(before, trace, now, [s], Now());
      longer := trace + [s];
    }

    /** The first loop of the job. */
    method TellDestroyed(script: seq<seq<Step>>) returns (rest: seq<seq<Step>>, ghost trace: seq<Step>)
      requires Valid() && AllEvents(script) && stage == Destroys && !telling
      modifies this, table
      ensures Valid() && Leads(old(Now()), trace, Now()) && stage == Destroys && !telling && destructed == map[]
      ensures AllEvents(rest) && |rest| <= |script| && table == old(table) && NoLoads(trace)
      ensures script == [] ==> AllWorker(trace)
    {
      rest, trace := script, [];
      ghost var before := Now();
      while destructed != map[]
        invariant Valid() && Leads(before, trace, Now()) && stage == Destroys && !telling
        invariant AllEvents(rest) && |rest| <= |script| && table == old(table) && NoLoads(trace)
        invariant script == [] ==> AllWorker(trace)
        decreases |rest|, |destructed|
      {
        ghost var now, turn := Now(), [];
        rest, turn := DestroyTurn(rest);
        LeadsOn(before, trace, now, turn, Now());
        trace := trace + turn;
      }
    }

    /** The second loop of the job. */
    method TellCreated(script: seq<seq<Step>>, stateOf: (nat, nat) -> State)
        returns (rest: seq<seq<Step>>, ghost trace: seq<Step>)
      requires Valid() && AllEvents(script) && stage == Creates && !telling && Inv(View())
      modifies this, table
      ensures Valid() && Leads(old(Now()), trace, Now()) && stage == Creates && !telling && created == map[]
      ensures AllEvents(rest) && |rest| <= |script|
      ensures script == [] ==> AllWorker(trace)
      ensures old(table) <= table && fresh(set o | o in table[|old(table)|..])
      ensures Honest(trace, |old(table)|, Values(table), |script|, stateOf)
    {
      rest, trace := script, [];
      ghost var before := Now();
      while created != map[]
        invariant Valid() && Leads(before, trace, Now()) && stage == Creates && !telling
        invariant AllEvents(rest) && |rest| <= |script|
        invariant old(table) <= table && fresh(set o | o in table[|old(table)|..])
        invariant script == [] ==> AllWorker(trace)
        invariant Honest(trace, |old(table)|, Values(table), |script|, stateOf)
        decreases |rest|, |created|
      {
        ghost var now, turn, windows := Now(), [], |rest|;
        ApartAfter(before, trace, now);
        rest, turn := CreateTurn(rest, stateOf);
        LeadsOn(before, trace, now, turn, Now());
        HonestOn(trace, |old(table)|, now, turn, Now(), windows, |script|, stateOf);
        trace := trace + turn;
      }
    }

    /** One turn of the third loop: a shell with a changed state is told of. */
    method ReportTurn(script: seq<seq<Step>>, c: string)
        returns (settled: bool, rest: seq<seq<Step>>, ghost trace: seq<Step>)
      requires Valid() && AllEvents(script) && stage == Reports && !telling && c in externalShells && Inv(View())
      modifies this`created, this`externalShells, this`destructed, this`lost
      modifies this`submitted, this`remote, this`log, this`telling, table
      ensures Valid() && Leads(old(Now()), trace, Now()) && stage == Reports && !telling
      ensures AllEvents(rest) && |rest| <= |script| && settled == Settled(old(View()), c)
      ensures settled ==> Now() == old(Now())
      ensures NoLoads(trace)
      ensures !settled && script != [] ==> |rest| < |script|
      ensures script == [] ==> AllWorker(trace) && (!settled ==> |Unsettled(View())| < |old(Unsettled(View()))|)
    {
      ghost var before := Now();
      rest, trace := script, [];
      var action := AskReport(c);
      settled := action.None?;
      if !settled {
        OneStepLeads(before, Reporting(c));
        ReportSettles(before.link, c);
        rest, trace := CallAfter(before, Reporting(c), script);
      }
    }

    /** The same as a continuation of what the job has done so far. */
    method NextReport(ghost b: Bridge, ghost sofar: seq<Step>, script: seq<seq<Step>>, c: string)
        returns (settled: bool, rest: seq<seq<Step>>, ghost trace: seq<Step>)
      requires Valid() && AllEvents(script) && stage == Reports && !telling && c in externalShells
      requires Inv(b.link) && Leads(b, sofar, Now())
      modifies this`created, this`externalShells, this`destructed, this`lost
      modifies this`submitted, this`remote, this`log, this`telling, table
      ensures Valid() && Leads(b, trace, Now()) && stage == Reports && !telling
      ensures AllEvents(rest) && |rest| <= |script| && settled == Settled(old(View()), c)
      ensures settled ==> Now() == old(Now())
      ensures NoLoads(sofar) ==> NoLoads(trace)
      ensures !settled && script != [] ==> |rest| < |script|
      ensures script == [] && AllWorker(sofar) ==> AllWorker(trace)
      ensures script == [] && !settled ==> |Unsettled(View())| < |old(Unsettled(View()))|
    {
      ghost var now := Now();
      RunKeeps(b, sofar);
      settled, rest, trace := ReportTurn(script, c);
      LeadsOn(b, sofar, now, trace, Now());
      trace := sofar + trace;
    }

    /** The third loop of the job: it starts over after every callback. */
    method TellReports(script: seq<seq<Step>>) returns (rest: seq<seq<Step>>, ghost trace: seq<Step>)
      requires Valid() && AllEvents(script) && stage == Reports && !telling && Inv(View())
      modifies this`created, this`externalShells, this`destructed, this`lost
      modifies this`submitted, this`remote, this`log, this`telling, table
      ensures Valid() && Leads(old(Now()), trace, Now()) && stage == Reports && !telling && AllSettled(View())
      ensures NoLoads(trace) && (script == [] ==> AllWorker(trace))
    {
      rest, trace := script, [];
      ghost var before := Now();
      var todo := externalShells.Keys;
      while todo != {}
        invariant Valid() && Leads(before, trace, Now()) && stage == Reports && !telling
        invariant AllEvents(rest) && |rest| <= |script| && NoLoads(trace) && (script == [] ==> AllWorker(trace))
        invariant todo <= externalShells.Keys
        invariant forall c :: c in externalShells && c !in todo ==> Settled(View(), c)
        decreases |rest|, |Unsettled(View())|, |todo|
      {
        var c :| c in todo;
        var settled;
        settled, rest, trace := NextReport(before, trace, rest, c);
        todo := if settled then todo - {c} else externalShells.Keys;
      }
    }

    /** The first loop, after which the second one begins. */
    method Destructions(script: seq<seq<Step>>) returns (rest: seq<seq<Step>>, ghost trace: seq<Step>)
      requires Valid() && AllEvents(script) && stage == Destroys && !telling
      modifies this, table
      ensures Valid() && Leads(old(Now()), trace, Now()) && stage == Creates && !telling && table == old(table)
      ensures AllEvents(rest) && |rest| <= |script| && (script == [] ==> AllWorker(trace)) && NoLoads(trace)
    {
      ghost var before := Now();
      rest, trace := TellDestroyed(script);
      trace := GoOn(before, trace, DestroysDone);
    }

    /** The second loop, after which the third one begins. */
    method Creations(script: seq<seq<Step>>, stateOf: (nat, nat) -> State)
        returns (rest: seq<seq<Step>>, ghost trace: seq<Step>)
      requires Valid() && Inv(View()) && AllEvents(script) && stage == Creates && !telling
      modifies this, table
      ensures Valid() && Leads(old(Now()), trace, Now()) && stage == Reports && !telling
      ensures AllEvents(rest) && |rest| <= |script| && (script == [] ==> AllWorker(trace))
      ensures old(table) <= table && fresh(set o | o in table[|old(table)|..])
      ensures Honest(trace, |old(table)|, Values(table), |script|, stateOf)
    {
      ghost var before := Now();
      rest, trace := TellCreated(script, stateOf);
      ghost var told := trace;
      trace := GoOn(before, trace, CreatesDone);
      HonestBefore(told, |old(table)|, [CreatesDone], Values(table), |script|, stateOf);
    }

    /** The first two loops, the one after the other. */
    method Drain(script: seq<seq<Step>>, stateOf: (nat, nat) -> State)
        returns (rest: seq<seq<Step>>, ghost trace: seq<Step>)
      requires Valid() && Inv(View()) && AllEvents(script) && stage == Destroys && !telling
      modifies this, table
      ensures Valid() && Leads(old(Now()), trace, Now()) && stage == Reports && !telling
      ensures AllEvents(rest) && |rest| <= |script| && (script == [] ==> AllWorker(trace))
      ensures old(table) <= table && fresh(set o | o in table[|old(table)|..])
      ensures Honest(trace, |old(table)|, Values(table), |script|, stateOf)
    {
      ghost var before, turn := Now(), [];
      rest, trace := Destructions(script);
      ghost var emptied, windows := Now(), |rest|;
      RunKeeps(before, trace);
      rest, turn := Creations(rest, stateOf);
      LeadsOn(before, trace, emptied, turn, Now());
      HonestAfter(trace, turn, |old(table)|, Values(table), windows, |script|, stateOf);
      trace := trace + turn;
    }

    /** The third loop, after which the job ends. */
    method StateChanges(script: seq<seq<Step>>) returns (ghost trace: seq<Step>)
      requires Valid() && Inv(View()) && AllEvents(script) && stage == Reports && !telling
      modifies this`created, this`externalShells, this`destructed, this`lost, this`submitted, this`remote,
        this`log, this`telling, this`stage, table
      ensures Valid() && Leads(old(Now()), trace, Now()) && stage == Idle && !telling && AllSettled(View())
      ensures NoLoads(trace) && (script == [] ==> AllWorker(trace))
    {
      ghost var before := Now();
      var rest;
      rest, trace := TellReports(script);
      trace := GoOn(before, trace, ReportsDone);
    }

    /** The three loops, one after the other. */
    method Work(script: seq<seq<Step>>, stateOf: (nat, nat) -> State) returns (ghost trace: seq<Step>)
      requires Valid() && Inv(View()) && AllEvents(script) && stage == Destroys && !telling
      modifies this, table
      ensures Valid() && Leads(old(Now()), trace, Now()) && stage == Idle && !telling && AllSettled(View())
      ensures script == [] ==> AllWorker(trace)
      ensures old(table) <= table && fresh(set o | o in table[|old(table)|..])
      ensures Honest(trace, |old(table)|, Values(table), |script|, stateOf)
    {
      ghost var before, turn := Now(), [];
      var rest;
      rest, trace := Drain(script, stateOf);
      ghost var drained := Now();
      RunKeeps(before, trace);
      turn := StateChanges(rest);
      LeadsOn(before, trace, drained, turn, Now());
      HonestThen(trace, |old(table)|, drained, turn, Now(), |script|, stateOf);
      trace := trace + turn;
    }

    /**
     The job: it empties the queue, makes the proxies that wait and reports the changed states. The
     script says which events come in each window; stateOf what a source answers when it is asked, by
     the number of windows that are still to come.
     */
    method Dispatch(script: seq<seq<Step>>, stateOf: (nat, nat) -> State) returns (ghost trace: seq<Step>)
      requires Valid() && Inv(View()) && AllEvents(script) && stage == Idle && submitted && !telling
      modifies this, table
      ensures Valid() && Leads(old(Now()), trace, Now()) && stage == Idle && !telling && AllSettled(View())
      ensures script == [] ==> Resting(Now()) && ToldWhatWasOwed(old(Now()), Now())
      ensures old(table) <= table && fresh(set o | o in table[|old(table)|..])
      ensures Honest(trace, |old(table)|, Values(table), |script|, stateOf)
      ensures script == [] ==> forall c :: c in old(created) ==>
        ToldOfSource(Now(), c, |old(table)|, stateOf(old(created)[c], 0))
    {
      ghost var before := Now();
      submitted, stage := false, Destroys;
      OneStepLeads(before, Starting);
      ghost var started := Now();
      StepKeeps(before, Starting);
      trace := Work(script, stateOf);
      LeadsOn(before, [Starting], started, trace, Now());
      if script == [] {
        WorkersDoNotSubmit(started, trace);
        QuietDispatchTells(before, [Starting] + trace, Now());
      }
      HonestAfter([Starting], trace, |old(table)|, Values(table), |script|, |script|, stateOf);
      trace := [Starting] + trace;
      if script == [] { WaitingTold(before, trace, Now(), stateOf); }
    }
  }

  lemma {:induction false} WorkersDoNotSubmit(b: Bridge, steps: seq<Step>)
    requires AllWorker(steps) && !b.submitted
    ensures !After(b, steps).submitted
    decreases |steps|
  {
    if steps != [] { WorkersDoNotSubmit(Apply(b, steps[0]), steps[1..]); }
  }

  /** The callsigns whose proxy has a changed state to be told. */
  ghost function Unsettled(m: LinkSteps.Link): set<string> {
    set c | c in m.shells && !Settled(m, c)
  }

  lemma ReportSettles(m: LinkSteps.Link, c: string)
    requires Inv(m) && c in m.shells && !Settled(m, c)
    ensures |Unsettled(ToldAll(TakeReport(m, c)))| < |Unsettled(m)|
  {
    forall d | d in m.shells && m.shells[d] == m.shells[c] ensures d == c {
      assert CallsignOk(m, d) && CallsignOk(m, c);
    }
    assert c in Unsettled(m) && Unsettled(ToldAll(TakeReport(m, c))) == Unsettled(m) - {c};
  }

  lemma ApartAfter(b: Bridge, steps: seq<Step>, n: Bridge)
    requires Inv(b.link) && Leads(b, steps, n)
    ensures n.link.created.Keys !! n.link.shells.Keys
  {
    RunKeeps(b, steps);
    InvMirrors(n.link);
  }

  lemma FewerLeft(m: map<string, nat>, c: string)
    requires c in m
    ensures |Removed(m, c)| == |m| - 1
  {
    assert Removed(m, c).Keys == m.Keys - {c};
  }

  predicate AllEvents(script: seq<seq<Step>>) {
    forall i, k :: 0 <= i < |script| && 0 <= k < |script[i]| ==> !IsWorker(script[i][k])
  }

  /** Nothing was decided to be told in between. */
  predicate Undecided(b: Bridge, n: Bridge) {
    n.stage == b.stage && n.link.log == b.link.log && n.link.telling == b.link.telling
    && |n.link.proxies| == |b.link.proxies|
  }

  lemma EventUndecided(b: Bridge, e: Step)
    requires !IsWorker(e)
    ensures Undecided(b, Apply(b, e))
  {
  }

  lemma QueuingNone(m: LinkSteps.Link, gone: set<string>)
    requires gone == {}
    ensures Queuing(m, gone) == m
  {
    assert Queuing(m, gone).proxies == m.proxies;
    assert Queuing(m, gone).destructed == m.destructed;
    assert Queuing(m, gone).lost == m.lost;
  }

  /** One turn of the loop of Flush. */
  lemma QueuingOne(m: LinkSteps.Link, gone: set<string>, c: string)
    requires c in m.shells && c !in gone && m.shells[c] < |m.proxies|
    ensures Queuing(m, gone + {c}) == Queue(Queuing(m, gone), c)
  {
    QueuingOneProxies(m, gone, c);
    var after, one := Queuing(m, gone + {c}), Queue(Queuing(m, gone), c);
    assert after.destructed == one.destructed;
    assert after.lost == one.lost;
  }

  lemma QueuingOneProxies(m: LinkSteps.Link, gone: set<string>, c: string)
    requires c in m.shells && c !in gone && m.shells[c] < |m.proxies|
    ensures Queuing(m, gone + {c}).proxies == With(Queuing(m, gone).proxies, m.shells[c], Unlinked)
  {
    var after, one := Queuing(m, gone + {c}).proxies, With(Queuing(m, gone).proxies, m.shells[c], Unlinked);
    forall id | 0 <= id < |m.proxies| ensures after[id] == one[id] {
      assert (exists d :: d in gone + {c} && Is(m.shells, d, id))
        <==> ((exists d :: d in gone && Is(m.shells, d, id)) || Is(m.shells, c, id));
    }
  }
}
