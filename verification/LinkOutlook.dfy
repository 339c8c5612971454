/**
 What the callback is still to be told: a dispatch without interference tells each proxy exactly
 that.
 */
module LinkOutlook {
  import opened Lifecycle
  import opened LinkSteps
  import opened LinkRuns

  /** What the link still owes the callback about a proxy: a changed state, or its destruction. */
  function Owed(m: Link, id: nat): seq<Note> {
    if id >= |m.proxies| then []
    else
      var p := m.proxies[id];
      (if Is(m.shells, p.callsign, id) && p.report != p.state then [Reported(id, p.report)] else [])
      + (if Is(m.destructed, p.callsign, id) then [Destroyed(id)] else [])
  }

  function Outlook(m: Link, id: nat): seq<Note> {
    About(m.log, id) + Owed(m, id)
  }

  // ----- A dispatch tells what is owed -----

  predicate IsWorker(s: Step) {
    !s.RemoteCreated? && !s.RemoteDestroyed? && !s.RemoteState? && !s.Disconnected?
  }

  predicate AllWorker(steps: seq<Step>) {
    forall i :: 0 <= i < |steps| ==> IsWorker(steps[i])
  }

  lemma DestroyingKeepsOutlook(m: Link, c: string, id: nat)
    requires Inv(m) && c in m.destructed && id < |m.proxies|
    ensures Outlook(TakeDestructed(m, c), id) == Outlook(m, id)
  {
    assert CallsignOk(m, c) && IdOk(m, id);
    AboutSnoc(m.log, Destroyed(m.destructed[c]), id);
  }

  lemma CreatingKeepsOutlook(m: Link, c: string, id: nat)
    requires Inv(m) && c in m.created && id < |m.proxies|
    ensures Outlook(TakeCreated(m, c), id) == Outlook(m, id)
  {
    assert CallsignOk(m, c) && CallsignOk(m, m.proxies[id].callsign);
    AboutSnoc(m.log, Created(|m.proxies|), id);
  }

  lemma ReportingKeepsOutlook(m: Link, c: string, id: nat)
    requires Inv(m) && c in m.shells && m.shells[c] < |m.proxies| && id < |m.proxies|
    ensures Outlook(TakeReport(m, c), id) == Outlook(m, id)
  {
    assert CallsignOk(m, c) && IdOk(m, id);
    var p := m.proxies[m.shells[c]];
    if p.report != p.state {
      AboutSnoc(m.log, Reported(m.shells[c], p.report), id);
    }
  }

  /** No step of the worker changes what a proxy has been told together with what it is owed. */
  lemma WorkerKeepsOutlook(b: Bridge, s: Step, id: nat)
    requires Inv(b.link) && Enabled(b, s) && IsWorker(s) && id < |b.link.proxies|
    requires s.Loading? ==> s.id != id
    ensures Outlook(Apply(b, s).link, id) == Outlook(b.link, id)
  {
    match s
    case Destroying(c) => DestroyingKeepsOutlook(b.link, c, id);
    case Creating(c) => CreatingKeepsOutlook(b.link, c, id);
    case Reporting(c) => assert CallsignOk(b.link, c); ReportingKeepsOutlook(b.link, c, id);
    case _ =>
  }

  /** The state of this proxy is not being loaded. */
  predicate NotLoading(m: Link, id: nat) {
    !(m.telling && Announcing(m, id))
  }

  lemma {:induction false} UndisturbedKeepsOutlook(b: Bridge, steps: seq<Step>, id: nat)
    requires Inv(b.link) && Runs(b, steps) && AllWorker(steps) && id < |b.link.proxies| && NotLoading(b.link, id)
    ensures Outlook(After(b, steps).link, id) == Outlook(b.link, id)
    ensures id < |After(b, steps).link.proxies|
    decreases |steps|
  {
    if steps != [] {
      StepKeeps(b, steps[0]);
      WorkerKeepsOutlook(b, steps[0], id);
      StaysUnloaded(b, steps[0], id);
      UndisturbedKeepsOutlook(Apply(b, steps[0]), steps[1..], id);
    }
  }

  lemma StaysUnloaded(b: Bridge, s: Step, id: nat)
    requires Inv(b.link) && Enabled(b, s) && IsWorker(s) && id < |b.link.proxies| && NotLoading(b.link, id)
    ensures id < |Apply(b, s).link.proxies| && NotLoading(Apply(b, s).link, id)
  {
    if s.Reporting? { assert CallsignOk(b.link, s.c); }
  }

  lemma NothingOwed(m: Link, id: nat)
    requires m.destructed == map[] && AllSettled(m)
    ensures Owed(m, id) == []
  {
    if id < |m.proxies| && Is(m.shells, m.proxies[id].callsign, id) {
      assert Settled(m, m.proxies[id].callsign);
    }
  }

  /**
   A dispatch that no event disturbs ends up to date and tells each proxy exactly what it was owed:
   the queued ones that they are destroyed, the changed ones their state, all others nothing.
   */
  lemma QuietDispatch(b: Bridge, steps: seq<Step>, id: nat)
    requires Inv(b.link) && Runs(b, steps) && AllWorker(steps) && Awake(b)
    requires b.stage == Idle && !b.link.telling && Resting(After(b, steps)) && id < |b.link.proxies|
    ensures About(After(b, steps).link.log, id) == Outlook(b.link, id)
    ensures UpToDate(After(b, steps).link)
  {
    var m := After(b, steps).link;
    UndisturbedKeepsOutlook(b, steps, id);
    RunStaysAwake(b, steps);
    NothingOwed(m, id);
    assert About(m.log, id) + [] == About(m.log, id);
    RunKeeps(b, steps);
    InvMirrors(m);
  }

  ghost predicate ToldWhatWasOwed(b: Bridge, n: Bridge) {
    UpToDate(n.link) && forall id: nat :: id < |b.link.proxies| ==> About(n.link.log, id) == Outlook(b.link, id)
  }

  lemma QuietDispatchTells(b: Bridge, steps: seq<Step>, n: Bridge)
    requires Inv(b.link) && Leads(b, steps, n) && AllWorker(steps) && Awake(b)
    requires b.stage == Idle && !b.link.telling && Resting(n)
    ensures ToldWhatWasOwed(b, n)
  {
    forall id: nat | id < |b.link.proxies| ensures About(n.link.log, id) == Outlook(b.link, id) {
      QuietDispatch(b, steps, id);
    }
    if |b.link.proxies| > 0 {
      QuietDispatch(b, steps, 0);
    } else {
      RunStaysAwake(b, steps);
      RunKeeps(b, steps);
      InvMirrors(n.link);
    }
  }

  // ----- New proxies -----

  /** Created, and at most one state after it. */
  predicate NewlyTold(notes: seq<Note>, id: nat) {
    notes == [Created(id)] || (|notes| == 2 && notes[0] == Created(id) && notes[1].Reported? && notes[1].id == id)
  }

  lemma AnnouncedOnce(m: Link, id: nat)
    requires Inv(m) && m.log != [] && m.log[|m.log| - 1] == Created(id)
    ensures About(m.log, id) == [Created(id)]
  {
    assert IdOk(m, id);
    TrackedIsWellTold(m.log, id);
    var notes := About(m.log, id);
    assert Follows(notes, |notes| - 1);
  }

  lemma LoadingNewlyTold(b: Bridge, id: nat, answer: State)
    requires Inv(b.link) && Enabled(b, Loading(id, answer)) && b.link.destructed == map[]
    ensures NewlyTold(Outlook(Loaded(b.link, id, answer), id), id)
  {
    AnnouncedOnce(b.link, id);
    var m := Loaded(b.link, id, answer);
    assert m.log == b.link.log;
  }

  lemma CreatingNewlyTold(m: Link, c: string)
    requires Inv(m) && c in m.created
    ensures NewlyTold(Outlook(TakeCreated(m, c), |m.proxies|), |m.proxies|)
  {
    var n, id := TakeCreated(m, c), |m.proxies|;
    TakeCreatedKeeps(m, c) by { assert CallsignOk(m, c); }
    AnnouncedOnce(n, id);
    assert CallsignOk(m, c) && Owed(n, id) == [];
  }

  /** From a number on, all proxies are newly told, once what is owed them has been. */
  ghost predicate NewFrom(m: Link, first: nat) {
    forall id :: first <= id < |m.proxies| ==> NewlyTold(Outlook(m, id), id)
  }

  lemma WorkerKeepsNew(b: Bridge, s: Step, first: nat)
    requires Inv(b.link) && Enabled(b, s) && IsWorker(s) && NewFrom(b.link, first)
    requires Awake(b) && (b.submitted ==> b.stage == Idle)
    ensures NewFrom(Apply(b, s).link, first)
    ensures |Apply(b, s).link.proxies| + |Apply(b, s).link.created| == |b.link.proxies| + |b.link.created|
  {
    var n := Apply(b, s).link;
    forall id | first <= id < |n.proxies| ensures NewlyTold(Outlook(n, id), id) {
      if id == |b.link.proxies| {
        CreatingNewlyTold(b.link, s.c);
      } else if s.Loading? && s.id == id {
        LoadingNewlyTold(b, id, s.answer);
      } else {
        GrowsAtMostOne(b, s);
        WorkerKeepsOutlook(b, s, id);
      }
    }
    GrowsAtMostOne(b, s);
  }

  lemma GrowsAtMostOne(b: Bridge, s: Step)
    requires Inv(b.link) && Enabled(b, s) && IsWorker(s)
    ensures var n := Apply(b, s).link;
            && |n.proxies| + |n.created| == |b.link.proxies| + |b.link.created|
            && |b.link.proxies| <= |n.proxies| <= |b.link.proxies| + 1
            && (|n.proxies| > |b.link.proxies| ==> s.Creating?)
  {
    match s
    case Creating(c) => assert |Removed(b.link.created, c)| == |b.link.created| - 1 by {
      assert Removed(b.link.created, c).Keys == b.link.created.Keys - {c};
    }
    case Reporting(c) => assert CallsignOk(b.link, c);
    case _ =>
  }

  lemma {:induction false} UndisturbedKeepsNew(b: Bridge, steps: seq<Step>, first: nat)
    requires Inv(b.link) && Runs(b, steps) && AllWorker(steps) && NewFrom(b.link, first)
    requires Awake(b) && (b.submitted ==> b.stage == Idle)
    ensures NewFrom(After(b, steps).link, first)
    ensures |After(b, steps).link.proxies| + |After(b, steps).link.created| == |b.link.proxies| + |b.link.created|
    decreases |steps|
  {
    if steps != [] {
      StepKeeps(b, steps[0]);
      WorkerKeepsNew(b, steps[0], first);
      StepStaysAwake(b, steps[0]);
      UndisturbedKeepsNew(Apply(b, steps[0]), steps[1..], first);
    }
  }

  /** Such a dispatch also makes one proxy for each plugin that waited and tells of it, newly. */
  lemma QuietDispatchCreates(b: Bridge, steps: seq<Step>)
    requires Inv(b.link) && Runs(b, steps) && AllWorker(steps) && Awake(b)
    requires b.stage == Idle && Resting(After(b, steps))
    ensures |After(b, steps).link.proxies| == |b.link.proxies| + |b.link.created|
    ensures forall id ::
      |b.link.proxies| <= id < |After(b, steps).link.proxies| ==> NewlyTold(About(After(b, steps).link.log, id), id)
  {
    var m := After(b, steps).link;
    UndisturbedKeepsNew(b, steps, |b.link.proxies|);
    RunStaysAwake(b, steps);
    forall id | |b.link.proxies| <= id < |m.proxies| ensures NewlyTold(About(m.log, id), id) {
      NothingOwed(m, id);
      assert About(m.log, id) + [] == Outlook(m, id);
    }
  }
}
