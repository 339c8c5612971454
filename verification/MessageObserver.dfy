/**
 The observer of message connections as it is built: a map of connections, the events that change
 it, and the job that attaches and detaches what it collected from it.
 */
module MessageObserver {
  import opened Common
  import opened ObserverSteps

  function Elements(ids: seq<nat>): set<nat> {
    set id | id in ids
  }

  class Observer {
    var observing: map<nat, State>
    var submitted: bool
    ghost var attaching: set<nat>
    ghost var detaching: set<nat>
    ghost var calls: seq<Call>
    ghost var live: set<nat>
    ghost var running: bool

    ghost function View(): Watcher
      reads this
    {
      Watcher(observing, attaching, detaching, calls, live, running, submitted)
    }

    constructor ()
      ensures View() == IDLE
    {
      observing, submitted := map[], false;
      attaching, detaching, calls, live, running := {}, {}, [], {}, false;
    }

    method Activated(id: nat)
      modifies this`observing, this`submitted, this`live
      ensures View() == Apply(old(View()), Step.Activated(id))
    {
      if id !in observing {
        observing := observing[id := Attaching];
      } else if observing[id] == Detaching {
        observing := observing[id := Observing];
      }
      live := live + {id};
      submitted := true;
    }

    method Drop(id: nat)
      modifies this`observing, this`submitted, this`live
      ensures View() == Apply(old(View()), Dropped(id))
    {
      if id in observing {
        if observing[id] == Attaching {
          observing := observing - {id};
        } else if observing[id] == Observing {
          observing := observing[id := Detaching];
        }
      }
      live := live - {id};
      submitted := true;
    }

    /** The locked part of the job: one entry after the other, in whatever order they come. */
    method Collect() returns (toAttach: seq<nat>, toDetach: seq<nat>)
      modifies this`observing, this`submitted, this`attaching, this`detaching, this`running
      ensures View() == Apply(old(View()), Collecting)
      ensures Distinct(toAttach) && Elements(toAttach) == attaching
      ensures Distinct(toDetach) && Elements(toDetach) == detaching
    {
      toAttach, toDetach := [], [];
      ghost var before := observing;
      var todo := observing.Keys;
      while todo != {}
        invariant todo <= before.Keys
        invariant observing == Swept(before, todo)
        invariant Distinct(toAttach)
        invariant forall id :: id in toAttach <==> id in before && id !in todo && before[id] == Attaching
        invariant Distinct(toDetach)
        invariant forall id :: id in toDetach <==> id in before && id !in todo && before[id] == Detaching
      {
        var id :| id in todo;
        SweptOne(before, todo, id);
        if observing[id] == Attaching {
          toAttach := toAttach + [id];
          observing := observing[id := Observing];
        } else if observing[id] == Detaching {
          toDetach := toDetach + [id];
          observing := observing - {id};
        }
        todo := todo - {id};
      }
      attaching, detaching, running, submitted := Elements(toAttach), Elements(toDetach), true, false;
    }

    /** An event. */
    method Happen(e: Step)
      requires e.Activated? || e.Dropped?
      modifies this`observing, this`submitted, this`live
      ensures View() == Apply(old(View()), e)
    {
      match e
      case Activated(id) => Activated(id);
      case Dropped(id) => Drop(id);
    }

    /** Events come while the job makes its calls. */
    method Window(script: seq<seq<Step>>) returns (rest: seq<seq<Step>>, ghost trace: seq<Step>)
      requires AllEvents(script)
      modifies this`observing, this`submitted, this`live
      ensures Leads(old(View()), trace, View()) && AllEvents(rest)
      ensures script == [] ==> rest == [] && trace == []
    {
      rest, trace := [], [];
      if script != [] {
        rest := script[1..];
        var events := script[0];
        ghost var before := View();
        for i := 0 to |events|
          invariant Leads(before, trace, View())
        {
          ghost var now := View();
          Happen(events[i]);
          OneStepLeads(now, events[i]);
          LeadsOn(before, trace, now, [events[i]], View());
          trace := trace + [events[i]];
        }
      }
    }

    /** A call to the message control, after whatever events came first. */
    method Call(script: seq<seq<Step>>, c: Call) returns (rest: seq<seq<Step>>, ghost trace: seq<Step>)
      requires AllEvents(script) && running
      requires match c case Detach(id) => id in detaching case Attach(id) => detaching == {} && id in attaching
      modifies this`observing, this`submitted, this`live, this`attaching, this`detaching, this`calls
      ensures Leads(old(View()), trace, View()) && AllEvents(rest) && (script == [] ==> rest == [] && NoEvents(trace))
      ensures detaching == if c.Detach? then old(detaching) - {c.id} else old(detaching)
      ensures attaching == if c.Attach? then old(attaching) - {c.id} else old(attaching)
    {
      ghost var before := View();
      rest, trace := Window(script);
      ghost var now, s := View(), if c.Detach? then DetachCall(c.id) else AttachCall(c.id);
      if c.Detach? { detaching := detaching - {c.id}; } else { attaching := attaching - {c.id}; }
      calls := calls + [c];
      OneStepLeads(now, s);
      LeadsOn(before, trace, now, [s], View());
      trace := trace + [s];
    }

    /** One of the two loops of the job that make the calls. */
    method CallAll(script: seq<seq<Step>>, ids: seq<nat>, detach: bool)
        returns (rest: seq<seq<Step>>, ghost trace: seq<Step>)
      requires AllEvents(script) && running && Distinct(ids)
      requires if detach then detaching == Elements(ids) else detaching == {} && attaching == Elements(ids)
      modifies this`observing, this`submitted, this`live, this`attaching, this`detaching, this`calls
      ensures Leads(old(View()), trace, View()) && AllEvents(rest) && (script == [] ==> rest == [] && NoEvents(trace))
      ensures detaching == {} && attaching == if detach then old(attaching) else {}
    {
      rest, trace := script, [];
      ghost var before := View();
      for i := 0 to |ids|
        invariant Leads(before, trace, View()) && AllEvents(rest) && (script == [] ==> rest == [] && NoEvents(trace))
        invariant if detach then detaching == Elements(ids[i..]) && attaching == before.attaching
                  else detaching == {} && attaching == Elements(ids[i..])
      {
        ghost var now, more := View(), [];
        ElementsTail(ids, i);
        rest, more := Call(rest, if detach then Detach(ids[i]) else Attach(ids[i]));
        LeadsOn(before, trace, now, more, View());
        trace := trace + more;
      }
      assert Elements(ids[|ids|..]) == {};
    }

    /** The job. The script says which events come before each of its calls. */
    method Dispatch(script: seq<seq<Step>>) returns (ghost trace: seq<Step>)
      requires !running && submitted && AllEvents(script) && Inv(View())
      modifies this
      ensures Leads(old(View()), trace, View()) && !running
      ensures script == [] ==> NoEvents(trace) && !submitted && live == old(live)
      ensures script == [] ==> forall id: nat :: Track(calls, id) == On <==> id in live
    {
      ghost var before, more := View(), [];
      OneStepLeads(before, Collecting);
      var toAttach, toDetach := Collect();
      ghost var collected := View();
      var rest;
      rest, trace := CallAll(script, toDetach, true);
      ghost var detached := View();
      rest, more := CallAll(rest, toAttach, false);
      LeadsOn(collected, trace, detached, more, View());
      trace := trace + more;
      ghost var called := View();
      running := false;
      OneStepLeads(called, Done);
      LeadsOn(collected, trace, called, [Done], View());
      trace := trace + [Done];
      LeadsOn(before, [Collecting], collected, trace, View());
      if script == [] { JobSubmitsNothing(collected, trace); }
      trace := [Collecting] + trace;
      RunKeeps(before, trace);
      if script == [] { AttachedAreLive(View()); }
    }
  }

  predicate AllEvents(script: seq<seq<Step>>) {
    forall i, k :: 0 <= i < |script| && 0 <= k < |script[i]| ==> IsEvent(script[i][k])
  }

  predicate NoEvents(steps: seq<Step>) {
    forall i :: 0 <= i < |steps| ==> !IsEvent(steps[i])
  }

  lemma ElementsTail(ids: seq<nat>, i: nat)
    requires Distinct(ids) && i < |ids|
    ensures ids[i] in Elements(ids[i..]) && Elements(ids[i..]) - {ids[i]} == Elements(ids[i + 1..])
  {
    assert ids[i..] == [ids[i]] + ids[i + 1..];
    assert ids[i] !in ids[i + 1..];
  }

  lemma AttachedAreLive(w: Watcher)
    requires Inv(w) && !w.running && !w.submitted
    ensures forall id: nat :: Track(w.calls, id) == On <==> id in w.live
  {
    forall id: nat ensures Track(w.calls, id) == On <==> id in w.live {
      assert IdOk(w, id);
    }
  }

  /** The entries once all but those still to do have been swept. */
  function Swept(observing: map<nat, State>, todo: set<nat>): map<nat, State> {
    map id | id in observing && (id in todo || observing[id] != Detaching) ::
      if id in todo then observing[id] else Observing
  }

  lemma SweptOne(observing: map<nat, State>, todo: set<nat>, id: nat)
    requires id in todo && id in observing
    ensures id in Swept(observing, todo) && Swept(observing, todo)[id] == observing[id]
    ensures Swept(observing, todo - {id})
         == if observing[id] == Detaching then Swept(observing, todo) - {id}
            else Swept(observing, todo)[id := Observing]
  {
  }
}
