/**
 The observer of message connections as a state machine: connections come and go, and a job
 attaches and detaches them at the message control, one call after the other, without a lock.
 */
module ObserverSteps {
  import StateMachine

  datatype State = Attaching | Observing | Detaching

  datatype Call = Attach(id: nat) | Detach(id: nat)

  /**
   `attaching` and `detaching` are what the running job has collected and not yet called for, `live`
   the connections that are up, `submitted` whether the job is to run (again).
   */
  datatype Watcher = Watcher(
    observing: map<nat, State>,
    attaching: set<nat>,
    detaching: set<nat>,
    calls: seq<Call>,
    live: set<nat>,
    running: bool,
    submitted: bool)

  const IDLE := Watcher(map[], {}, {}, [], {}, false, false)

  // ----- The calls about one connection -----

  datatype Phase = Off | On | Broken

  function Next(p: Phase, c: Call): Phase {
    match (p, c)
    case (Off, Attach(_)) => On
    case (On, Detach(_)) => Off
    case _ => Broken
  }

  /** Attach and Detach in turn, Attach first. */
  function Track(calls: seq<Call>, id: nat): Phase {
    if calls == [] then Off
    else
      var before := Track(calls[..|calls| - 1], id);
      if calls[|calls| - 1].id == id then Next(before, calls[|calls| - 1]) else before
  }

  lemma TrackSnoc(calls: seq<Call>, c: Call, id: nat)
    ensures Track(calls + [c], id) == if c.id == id then Next(Track(calls, id), c) else Track(calls, id)
  {
    assert (calls + [c])[..|calls|] == calls;
  }

  /** The calls about one connection, in order. */
  function About(calls: seq<Call>, id: nat): seq<Call> {
    if calls == [] then []
    else
      var before := About(calls[..|calls| - 1], id);
      if calls[|calls| - 1].id == id then before + [calls[|calls| - 1]] else before
  }

  predicate Alternate(calls: seq<Call>) {
    forall i :: 0 <= i < |calls| ==> (calls[i].Attach? <==> i % 2 == 0)
  }

  lemma AlternateSnoc(calls: seq<Call>, c: Call)
    ensures Alternate(calls + [c]) <==> Alternate(calls) && (c.Attach? <==> |calls| % 2 == 0)
  {
    var more := calls + [c];
    assert more[|calls|] == c;
    forall i | 0 <= i < |calls| ensures more[i] == calls[i] {}
    if Alternate(more) {
      forall i | 0 <= i < |calls| ensures calls[i].Attach? <==> i % 2 == 0 { assert more[i] == calls[i]; }
    }
  }

  /** The automaton and the description agree. */
  lemma {:induction false} TrackedAlternate(calls: seq<Call>, id: nat)
    ensures Track(calls, id) != Broken <==> Alternate(About(calls, id))
    ensures Track(calls, id) != Broken ==> (Track(calls, id) == On <==> |About(calls, id)| % 2 == 1)
  {
    if calls != [] {
      TrackedAlternate(calls[..|calls| - 1], id);
      AlternateSnoc(About(calls[..|calls| - 1], id), calls[|calls| - 1]);
    }
  }

  // ----- Steps -----

  function OnActivated(w: Watcher, id: nat): Watcher {
    var up := w.(live := w.live + {id}, submitted := true);
    if id !in w.observing then up.(observing := w.observing[id := Attaching])
    else if w.observing[id] == Detaching then up.(observing := w.observing[id := Observing])
    else up
  }

  function OnDrop(w: Watcher, id: nat): Watcher {
    var down := w.(live := w.live - {id}, submitted := true);
    if id !in w.observing then down
    else if w.observing[id] == Attaching then down.(observing := w.observing - {id})
    else if w.observing[id] == Observing then down.(observing := w.observing[id := Detaching])
    else down
  }

  function In(w: Watcher, s: State): set<nat> {
    set id | id in w.observing && w.observing[id] == s
  }

  /** The locked part of the job. */
  function OnCollect(w: Watcher): Watcher {
    w.(observing := map id | id in w.observing && w.observing[id] != Detaching :: Observing,
       attaching := In(w, Attaching), detaching := In(w, Detaching), running := true, submitted := false)
  }

  function OnDetach(w: Watcher, id: nat): Watcher {
    w.(detaching := w.detaching - {id}, calls := w.calls + [Detach(id)])
  }

  function OnAttach(w: Watcher, id: nat): Watcher {
    w.(attaching := w.attaching - {id}, calls := w.calls + [Attach(id)])
  }

  function OnDone(w: Watcher): Watcher {
    w.(running := false)
  }

  datatype Step = Activated(id: nat) | Dropped(id: nat) | Collecting | DetachCall(id: nat) | AttachCall(id: nat) | Done

  /** The job runs once at a time, and makes the calls to detach before those to attach. */
  predicate Enabled(w: Watcher, s: Step) {
    match s
    case Activated(_) => true
    case Dropped(_) => true
    case Collecting => !w.running && w.submitted
    case DetachCall(id) => w.running && id in w.detaching
    case AttachCall(id) => w.running && w.detaching == {} && id in w.attaching
    case Done => w.running && w.detaching == {} && w.attaching == {}
  }

  function Apply(w: Watcher, s: Step): Watcher {
    match s
    case Activated(id) => OnActivated(w, id)
    case Dropped(id) => OnDrop(w, id)
    case Collecting => OnCollect(w)
    case DetachCall(id) => OnDetach(w, id)
    case AttachCall(id) => OnAttach(w, id)
    case Done => OnDone(w)
  }

  // ----- The invariant -----

  predicate Has(w: Watcher, id: nat, s: State) {
    EntryOf(w, id) == Present(s)
  }

  datatype Entry = Absent | Present(state: State)

  function EntryOf(w: Watcher, id: nat): Entry {
    if id in w.observing then Present(w.observing[id]) else Absent
  }

  /**
   One connection: it is up exactly when its entry is attaching or observing, and once the calls
   collected so far have been made it is attached exactly when its entry is observing or detaching.
   */
  predicate Ok(live: bool, entry: Entry, toAttach: bool, toDetach: bool, phase: Phase) {
    && (live <==> entry == Present(Attaching) || entry == Present(Observing))
    && (toAttach || (!toDetach && phase == On) <==> entry == Present(Observing) || entry == Present(Detaching))
    && phase != Broken
    && (toAttach ==> !toDetach && phase == Off)
    && (toDetach ==> phase == On)
  }

  predicate IdOk(w: Watcher, id: nat) {
    Ok(id in w.live, EntryOf(w, id), id in w.attaching, id in w.detaching, Track(w.calls, id))
  }

  predicate IsSettled(w: Watcher) {
    forall id :: id in w.observing ==> w.observing[id] == Observing
  }

  ghost predicate Inv(w: Watcher) {
    && (forall id: nat :: IdOk(w, id))
    && (w.running || (w.attaching == {} && w.detaching == {}))
    && (w.submitted || IsSettled(w))
  }

  lemma IdleInv()
    ensures Inv(IDLE)
  {
  }

  lemma ActivatedKeepsId(w: Watcher, i: nat, id: nat)
    requires IdOk(w, id)
    ensures IdOk(OnActivated(w, i), id)
  {
  }

  lemma DropKeepsId(w: Watcher, i: nat, id: nat)
    requires IdOk(w, id)
    ensures IdOk(OnDrop(w, i), id)
  {
  }

  lemma CollectKeepsId(w: Watcher, id: nat)
    requires IdOk(w, id) && w.attaching == {} && w.detaching == {}
    ensures IdOk(OnCollect(w), id)
  {
  }

  lemma CallKeepsOk(live: bool, entry: Entry, toAttach: bool, toDetach: bool, phase: Phase, c: Call)
    requires Ok(live, entry, toAttach, toDetach, phase) && (if c.Attach? then toAttach else toDetach)
    ensures Ok(live, entry, toAttach && !c.Attach?, toDetach && !c.Detach?, Next(phase, c))
  {
  }

  lemma CallKeepsId(w: Watcher, n: Watcher, c: Call, id: nat)
    requires IdOk(w, id) && (if c.Attach? then c.id in w.attaching else c.id in w.detaching)
    requires n.observing == w.observing && n.live == w.live && n.calls == w.calls + [c]
    requires n.attaching == (if c.Attach? then w.attaching - {c.id} else w.attaching)
    requires n.detaching == (if c.Detach? then w.detaching - {c.id} else w.detaching)
    ensures IdOk(n, id)
  {
    TrackSnoc(w.calls, c, id);
    if c.id == id {
      CallKeepsOk(id in w.live, EntryOf(w, id), id in w.attaching, id in w.detaching, Track(w.calls, id), c);
    }
  }

  lemma StepKeepsId(w: Watcher, s: Step, id: nat)
    requires IdOk(w, id) && Enabled(w, s) && (w.running || (w.attaching == {} && w.detaching == {}))
    ensures IdOk(Apply(w, s), id)
  {
    match s
    case Activated(i) => ActivatedKeepsId(w, i, id);
    case Dropped(i) => DropKeepsId(w, i, id);
    case Collecting => CollectKeepsId(w, id);
    case DetachCall(i) => CallKeepsId(w, OnDetach(w, i), Detach(i), id);
    case AttachCall(i) => CallKeepsId(w, OnAttach(w, i), Attach(i), id);
    case Done =>
  }

  lemma StepKeeps(w: Watcher, s: Step)
    requires Inv(w) && Enabled(w, s)
    ensures Inv(Apply(w, s))
  {
    forall id: nat ensures IdOk(Apply(w, s), id) {
      assert IdOk(w, id);
      StepKeepsId(w, s, id);
    }
  }

  // ----- Runs -----

  predicate Runs(w: Watcher, steps: seq<Step>) {
    StateMachine.Runs(Enabled, Apply, w, steps)
  }

  function After(w: Watcher, steps: seq<Step>): Watcher {
    StateMachine.After(Apply, w, steps)
  }

  ghost predicate Leads(w: Watcher, steps: seq<Step>, n: Watcher) {
    StateMachine.Leads(Enabled, Apply, w, steps, n)
  }

  lemma OneStepLeads(w: Watcher, s: Step)
    requires Enabled(w, s)
    ensures Leads(w, [s], Apply(w, s))
  {
    StateMachine.OneStepLeads(Enabled, Apply, w, s);
  }

  lemma LeadsOn(a: Watcher, first: seq<Step>, b: Watcher, second: seq<Step>, c: Watcher)
    requires Leads(a, first, b) && Leads(b, second, c)
    ensures Leads(a, first + second, c)
  {
    StateMachine.LeadsOn(Enabled, Apply, a, first, b, second, c);
  }

  lemma RunKeeps(w: Watcher, steps: seq<Step>)
    requires Inv(w) && Runs(w, steps)
    ensures Inv(After(w, steps))
  {
    forall x: Watcher, t: Step | Inv(x) && Enabled(x, t) ensures Inv(Apply(x, t)) { StepKeeps(x, t); }
    StateMachine.RunKeeps(Enabled, Apply, Inv, w, steps);
  }

  /** After every run a connection is up exactly when its entry is attaching or observing. */
  lemma LiveOverRuns(steps: seq<Step>, id: nat)
    requires Runs(IDLE, steps)
    ensures var w := After(IDLE, steps);
            id in w.live <==> Has(w, id, Attaching) || Has(w, id, Observing)
  {
    IdleInv();
    RunKeeps(IDLE, steps);
    assert IdOk(After(IDLE, steps), id);
  }

  /** The calls alternate, and outside the job tell which entries are observing or detaching. */
  lemma CallsOverRuns(steps: seq<Step>, id: nat)
    requires Runs(IDLE, steps)
    ensures Alternate(About(After(IDLE, steps).calls, id))
    ensures var w := After(IDLE, steps);
            !w.running ==> (Track(w.calls, id) == On <==> Has(w, id, Observing) || Has(w, id, Detaching))
  {
    IdleInv();
    RunKeeps(IDLE, steps);
    assert IdOk(After(IDLE, steps), id);
    TrackedAlternate(After(IDLE, steps).calls, id);
  }

  /** When the job neither runs nor is to run, attached are exactly the connections that are up. */
  lemma RestingOverRuns(steps: seq<Step>, id: nat)
    requires Runs(IDLE, steps) && !After(IDLE, steps).running && !After(IDLE, steps).submitted
    ensures Track(After(IDLE, steps).calls, id) == On <==> id in After(IDLE, steps).live
  {
    CallsOverRuns(steps, id);
    LiveOverRuns(steps, id);
    IdleInv();
    RunKeeps(IDLE, steps);
  }

  // ----- What the events of a run say -----

  function Comes(id: nat): Step -> bool {
    (s: Step) => s == Activated(id)
  }

  function Goes(id: nat): Step -> bool {
    (s: Step) => s == Dropped(id)
  }

  /** Of the events of a connection the last one is that it came. */
  predicate Up(steps: seq<Step>, id: nat) {
    StateMachine.LastIs(steps, Comes(id), Goes(id))
  }

  lemma {:induction false} LiveExactly(steps: seq<Step>, id: nat)
    ensures id in After(IDLE, steps).live <==> Up(steps, id)
    decreases |steps|
  {
    if steps != [] {
      var before, s := steps[..|steps| - 1], steps[|steps| - 1];
      assert steps == before + [s];
      LiveExactly(before, id);
      StateMachine.AfterSnoc(Apply, IDLE, before, s);
      StateMachine.LastIsSnoc(before, s, Comes(id), Goes(id));
    }
  }

  /**
   When the job neither runs nor is to run, a connection is attached if and only if it came, and did not
   go since.
   */
  lemma RestingExactly(steps: seq<Step>, id: nat)
    requires Runs(IDLE, steps) && !After(IDLE, steps).running && !After(IDLE, steps).submitted
    ensures |About(After(IDLE, steps).calls, id)| % 2 == 1 <==> Up(steps, id)
  {
    RestingOverRuns(steps, id);
    LiveExactly(steps, id);
    CallsOverRuns(steps, id);
    TrackedAlternate(After(IDLE, steps).calls, id);
  }

  predicate IsEvent(s: Step) {
    s.Activated? || s.Dropped?
  }

  lemma {:induction false} JobSubmitsNothing(w: Watcher, steps: seq<Step>)
    requires !w.submitted && forall i :: 0 <= i < |steps| ==> !IsEvent(steps[i])
    ensures !After(w, steps).submitted && After(w, steps).live == w.live
    decreases |steps|
  {
    if steps != [] { JobSubmitsNothing(Apply(w, steps[0]), steps[1..]); }
  }
}
