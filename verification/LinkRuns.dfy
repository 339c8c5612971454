/**
 Runs of the bridge link: what holds after every interleaving of remote events with the worker
 job, and what does not.
 */
module LinkRuns {
  import opened Lifecycle
  import opened LinkSteps
  import StateMachine

  /** Where the worker job stands. */
  datatype Stage = Idle | Destroys | Creates | Reports

  /** The link with its job: submitted when it is to run (again). */
  datatype Bridge = Bridge(link: Link, stage: Stage, submitted: bool)

  function Start(): (b: Bridge)
    ensures Inv(b.link)
  {
    InitialInv();
    Bridge(INITIAL, Idle, false)
  }

  datatype Step =
    | RemoteCreated(c: string, source: nat)
    | RemoteDestroyed(c: string)
    | RemoteState(c: string, state: State)
    | Disconnected
    | Starting
    | Destroying(c: string)
    | DestroysDone
    | Creating(c: string)
    | Loading(id: nat, answer: State)
    | CreatesDone
    | Reporting(c: string)
    | ReportsDone
    | Calling

  predicate Settled(m: Link, c: string) {
    c in m.shells && m.shells[c] < |m.proxies| ==> m.proxies[m.shells[c]].report == m.proxies[m.shells[c]].state
  }

  predicate AllSettled(m: Link) {
    forall c :: c in m.shells ==> Settled(m, c)
  }

  /** The worker is about to tell that this proxy is created. */
  predicate Announcing(m: Link, id: nat) {
    m.log != [] && m.log[|m.log| - 1] == Created(id) && id == |m.proxies| - 1
  }

  /**
   The far side creates what it does not have and destroys what it has; the worker takes its lock
   only when the callback has returned, and goes on to the next loop when the current one is done.
   */
  predicate Enabled(b: Bridge, s: Step) {
    match s
    case RemoteCreated(c, _) => c !in b.link.remote
    case RemoteDestroyed(c) => c in b.link.remote
    case RemoteState(_, state) => state != Unset
    case Disconnected => true
    case Starting => b.stage == Idle && b.submitted
    case Destroying(c) => b.stage == Destroys && !b.link.telling && c in b.link.destructed
    case DestroysDone => b.stage == Destroys && !b.link.telling && b.link.destructed == map[]
    case Creating(c) => b.stage == Creates && !b.link.telling && c in b.link.created
    case Loading(id, _) => b.stage == Creates && b.link.telling && Announcing(b.link, id)
    case CreatesDone => b.stage == Creates && !b.link.telling && b.link.created == map[]
    case Reporting(c) => b.stage == Reports && !b.link.telling && c in b.link.shells && !Settled(b.link, c)
    case ReportsDone => b.stage == Reports && !b.link.telling && AllSettled(b.link)
    case Calling => b.link.telling
  }

  /** Whether an event has the job submitted; a state only when it differs from the one told last. */
  predicate Submits(m: Link, s: Step) {
    match s
    case RemoteCreated(_, _) => true
    case RemoteDestroyed(_) => true
    case RemoteState(c, state) => c in m.shells && m.shells[c] < |m.proxies| && m.proxies[m.shells[c]].state != state
    case Disconnected => OnFlush(m).destructed != map[]
    case _ => false
  }

  function Moved(m: Link, s: Step): Link {
    match s
    case RemoteCreated(c, source) => OnCreated(m, c, source)
    case RemoteDestroyed(c) => OnDestroy(m, c)
    case RemoteState(c, state) => OnState(m, c, state)
    case Disconnected => OnFlush(m)
    case Destroying(c) => if c in m.destructed then TakeDestructed(m, c) else m
    case Creating(c) => if c in m.created then TakeCreated(m, c) else m
    case Loading(id, answer) => Loaded(m, id, answer)
    case Reporting(c) => if c in m.shells && m.shells[c] < |m.proxies| then TakeReport(m, c) else m
    case Calling => ToldAll(m)
    case _ => m
  }

  function NextStage(stage: Stage, s: Step): Stage {
    match s
    case Starting => Destroys
    case DestroysDone => Creates
    case CreatesDone => Reports
    case ReportsDone => Idle
    case _ => stage
  }

  function Apply(b: Bridge, s: Step): Bridge {
    Bridge(Moved(b.link, s), NextStage(b.stage, s), !s.Starting? && (b.submitted || Submits(b.link, s)))
  }

  lemma StepKeeps(b: Bridge, s: Step)
    requires Inv(b.link) && Enabled(b, s)
    ensures Inv(Apply(b, s).link)
  {
    match s
    case RemoteCreated(c, source) => CreatedKeeps(b.link, c, source);
    case RemoteDestroyed(c) => assert CallsignOk(b.link, c); DestroyKeeps(b.link, c);
    case RemoteState(c, state) => assert CallsignOk(b.link, c); StateKeeps(b.link, c, state);
    case Disconnected => FlushKeeps(b.link);
    case Destroying(c) => assert CallsignOk(b.link, c); TakeDestructedKeeps(b.link, c);
    case Creating(c) => assert CallsignOk(b.link, c); TakeCreatedKeeps(b.link, c);
    case Loading(id, answer) => LoadedKeeps(b.link, id, answer);
    case Reporting(c) => assert CallsignOk(b.link, c); TakeReportKeeps(b.link, c);
    case Calling => ToldAllKeeps(b.link);
    case _ =>
  }

  // ----- Runs -----

  predicate Runs(b: Bridge, steps: seq<Step>) {
    StateMachine.Runs(Enabled, Apply, b, steps)
  }

  function After(b: Bridge, steps: seq<Step>): Bridge {
    StateMachine.After(Apply, b, steps)
  }

  /** A run from one state of the bridge to another. */
  ghost predicate Leads(b: Bridge, steps: seq<Step>, n: Bridge) {
    StateMachine.Leads(Enabled, Apply, b, steps, n)
  }

  lemma OneStepLeads(b: Bridge, s: Step)
    requires Enabled(b, s)
    ensures Leads(b, [s], Apply(b, s))
  {
    StateMachine.OneStepLeads(Enabled, Apply, b, s);
  }

  lemma LeadsOn(a: Bridge, first: seq<Step>, b: Bridge, second: seq<Step>, c: Bridge)
    requires Leads(a, first, b) && Leads(b, second, c)
    ensures Leads(a, first + second, c)
  {
    StateMachine.LeadsOn(Enabled, Apply, a, first, b, second, c);
  }

  lemma RunKeeps(b: Bridge, steps: seq<Step>)
    requires Inv(b.link) && Runs(b, steps)
    ensures Inv(After(b, steps).link)
  {
    forall x: Bridge, t: Step | Inv(x.link) && Enabled(x, t) ensures Inv(Apply(x, t).link) { StepKeeps(x, t); }
    StateMachine.RunKeeps(Enabled, Apply, (x: Bridge) => Inv(x.link), b, steps);
  }

  /** What the callback has been told: all that was decided but what is being told now. */
  function Delivered(m: Link): seq<Note> {
    if m.telling && m.log != [] then m.log[..|m.log| - 1] else m.log
  }

  lemma InvNeverBroken(m: Link, id: nat)
    requires Inv(m)
    ensures Track(m.log, id) != Broken && Track(Delivered(m), id) != Broken
  {
    assert IdOk(m, id);
  }

  /** Over every run, each proxy is created, reported in changing states and destroyed, in that order. */
  lemma LifecycleOverRuns(steps: seq<Step>, id: nat)
    requires Runs(Start(), steps)
    ensures WellTold(About(Delivered(After(Start(), steps).link), id))
  {
    RunKeeps(Start(), steps);
    var m := After(Start(), steps).link;
    InvNeverBroken(m, id);
    TrackedIsWellTold(Delivered(m), id);
  }

  /** What waits and what has a proxy are, apart, the plugins of the far side. */
  predicate Mirrors(m: Link) {
    && m.created.Keys !! m.shells.Keys && m.created.Keys + m.shells.Keys == m.remote.Keys
    && (forall c :: c in m.created ==> m.created[c] == m.remote[c])
    && (forall c :: c in m.shells ==> m.shells[c] < |m.proxies| && m.proxies[m.shells[c]].source == m.remote[c])
  }

  lemma InvMirrors(m: Link)
    requires Inv(m)
    ensures Mirrors(m)
  {
    forall c
      ensures c in m.remote.Keys <==> c in m.created.Keys || c in m.shells.Keys
      ensures !(c in m.created.Keys && c in m.shells.Keys)
      ensures c in m.created ==> m.created[c] == m.remote[c]
      ensures c in m.shells ==> m.shells[c] < |m.proxies| && m.proxies[m.shells[c]].source == m.remote[c]
    {
      assert CallsignOk(m, c);
    }
  }

  lemma MirrorOverRuns(steps: seq<Step>)
    requires Runs(Start(), steps)
    ensures Mirrors(After(Start(), steps).link)
  {
    RunKeeps(Start(), steps);
    InvMirrors(After(Start(), steps).link);
  }

  /** The assertions of Created, Destroy and the state events hold whenever the event can come. */
  lemma AssertionsHold(m: Link, c: string)
    requires Inv(m)
    ensures c !in m.remote ==> c !in m.created && c !in m.shells
    ensures c in m.remote && c in m.created ==> m.created[c] == m.remote[c]
    ensures c in m.remote && c !in m.created ==> c in m.shells && m.shells[c] < |m.proxies|
    ensures c in m.shells && m.shells[c] < |m.proxies| ==> c in m.remote && m.proxies[m.shells[c]].source == m.remote[c]
    ensures c in m.created ==> c !in m.shells
  {
    assert CallsignOk(m, c);
  }

  // ----- No wake-up is lost -----

  /** What a stage no longer looks after has the job submitted again. */
  predicate Awake(b: Bridge) {
    || b.submitted
    || ((b.stage == Destroys || b.link.destructed == map[])
        && (b.stage == Destroys || b.stage == Creates || b.link.created == map[])
        && (b.stage != Idle || AllSettled(b.link)))
  }

  lemma StepStaysAwake(b: Bridge, s: Step)
    requires Inv(b.link) && Enabled(b, s) && Awake(b)
    ensures Awake(Apply(b, s))
  {
    match s
    case RemoteState(c, state) => StateStaysAwake(b, c, state);
    case Disconnected => FlushStaysAwake(b);
    case Calling =>
    case _ =>
  }

  lemma StateStaysAwake(b: Bridge, c: string, state: State)
    requires Inv(b.link) && Awake(b)
    ensures Awake(Apply(b, RemoteState(c, state)))
  {
    assert CallsignOk(b.link, c);
    var n := Apply(b, RemoteState(c, state));
    if !n.submitted {
      assert n.link == b.link by {
        if c in b.link.shells {
          var id := b.link.shells[c];
          assert b.link.proxies[id := b.link.proxies[id]] == b.link.proxies;
        }
      }
    }
  }

  lemma FlushStaysAwake(b: Bridge)
    requires Inv(b.link) && Awake(b)
    ensures Awake(Apply(b, Disconnected))
  {
  }

  lemma RunStaysAwake(b: Bridge, steps: seq<Step>)
    requires Inv(b.link) && Runs(b, steps) && Awake(b)
    ensures Awake(After(b, steps))
  {
    forall x: Bridge, t: Step | Inv(x.link) && Awake(x) && Enabled(x, t)
      ensures Inv(Apply(x, t).link) && Awake(Apply(x, t))
    {
      StepKeeps(x, t);
      StepStaysAwake(x, t);
    }
    StateMachine.RunKeeps(Enabled, Apply, (x: Bridge) => Inv(x.link) && Awake(x), b, steps);
  }

  predicate Resting(b: Bridge) {
    b.stage == Idle && !b.submitted
  }

  predicate UpToDate(m: Link) {
    m.destructed == map[] && m.shells.Keys == m.remote.Keys && AllSettled(m)
  }

  /** When the job neither runs nor is to run, every plugin has a proxy, told in its last known state. */
  lemma NoLostWakeUp(steps: seq<Step>)
    requires Runs(Start(), steps)
    ensures Resting(After(Start(), steps)) ==> UpToDate(After(Start(), steps).link)
  {
    RunStaysAwake(Start(), steps);
    MirrorOverRuns(steps);
  }
}
