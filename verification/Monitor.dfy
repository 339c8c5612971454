/**
 The plugin monitor: each observed plugin is checked and measured at its own intervals, and one
 job wakes up for all of them.
 */
module Monitor {
  import opened Common
  import opened Scheduling

  /** What an observed plugin answers when it is asked. */
  datatype Answer = Answer(operational: bool, resident: nat)

  datatype Status = Status(notOperational: bool, exceededMemory: bool)

  /**
   A MonitorObject. `evaluated` counts the evaluations with a live source, `checks` and `measured`
   what was done in them.
   */
  datatype Watch = Watch(
    operationalInterval: nat,
    memoryInterval: nat,
    memoryThreshold: nat,
    operationalSlots: nat,
    memorySlots: nat,
    nextSlot: nat,
    interval: nat,
    operational: bool,
    source: bool,
    active: bool,
    evaluated: nat,
    checks: nat,
    measured: nat)

  // ----- Evaluation -----

  /** A 32-bit counter less the interval. */
  function RunDown(slots: nat, interval: nat): int {
    if slots >= interval then slots - interval else slots + UINT32 - interval
  }

  predicate Due(every: nat, slots: nat, interval: nat) {
    every != 0 && RunDown(slots, interval) == 0
  }

  function SlotsAfter(every: nat, slots: nat, interval: nat): (after: nat)
    requires interval < UINT32
  {
    if Due(every, slots, interval) then every else RunDown(slots, interval)
  }

  function Counted(due: bool): nat {
    if due then 1 else 0
  }

  function Evaluated(w: Watch, a: Answer): Watch
    requires w.interval < UINT32
  {
    if !w.source then w
    else
      var check := Due(w.operationalInterval, w.operationalSlots, w.interval);
      var measure := Due(w.memoryInterval, w.memorySlots, w.interval);
      w.(operationalSlots := SlotsAfter(w.operationalInterval, w.operationalSlots, w.interval),
         memorySlots := SlotsAfter(w.memoryInterval, w.memorySlots, w.interval),
         operational := if check then a.operational else w.operational,
         evaluated := w.evaluated + 1,
         checks := w.checks + Counted(check),
         measured := w.measured + Counted(measure))
  }

  function StatusOf(w: Watch, a: Answer): Status {
    Status(w.source && Due(w.operationalInterval, w.operationalSlots, w.interval) && !a.operational,
           w.source && Due(w.memoryInterval, w.memorySlots, w.interval)
           && w.memoryThreshold != 0 && a.resident > w.memoryThreshold)
  }

  /** A counter stands for the intervals still to go, of those that make up its period. */
  predicate CounterOk(every: nat, slots: nat, interval: nat, evaluated: nat, done: nat) {
    every > 0 ==>
      && interval > 0 && every / interval > 0 && every == interval * (every / interval)
      && slots == interval * (every / interval - evaluated % (every / interval))
      && done == evaluated / (every / interval)
  }

  predicate WatchOk(w: Watch) {
    && 0 < w.interval < UINT32
    && w.interval == Gcd(w.operationalInterval, w.memoryInterval)
    && CounterOk(w.operationalInterval, w.operationalSlots, w.interval, w.evaluated, w.checks)
    && CounterOk(w.memoryInterval, w.memorySlots, w.interval, w.evaluated, w.measured)
  }

  /** A counter is never run down below zero, and stays right. */
  lemma CounterKeeps(every: nat, slots: nat, interval: nat, evaluated: nat, done: nat)
    requires CounterOk(every, slots, interval, evaluated, done) && 0 < interval < UINT32
    ensures every > 0 ==> slots >= interval
    ensures CounterOk(every, SlotsAfter(every, slots, interval), interval, evaluated + 1,
                      done + Counted(Due(every, slots, interval)))
  {
    if every > 0 {
      var q, r := every / interval, evaluated % (every / interval);
      NextQuotient(evaluated, q);
      Positive(interval, q - r);
      Subtract(interval, q - r, 1);
      if r != q - 1 { Positive(interval, q - r - 1); }
    }
  }

  lemma EvaluatedKeeps(w: Watch, a: Answer)
    requires WatchOk(w)
    ensures WatchOk(Evaluated(w, a))
  {
    CounterKeeps(w.operationalInterval, w.operationalSlots, w.interval, w.evaluated, w.checks);
    CounterKeeps(w.memoryInterval, w.memorySlots, w.interval, w.evaluated, w.measured);
  }

  function AllEvaluated(w: Watch, answers: seq<Answer>): Watch
    requires WatchOk(w)
    decreases |answers|
  {
    if answers == [] then w else (EvaluatedKeeps(w, answers[0]); AllEvaluated(Evaluated(w, answers[0]), answers[1..]))
  }

  lemma CountsFromCounter(every: nat, slots: nat, interval: nat, evaluated: nat, done: nat)
    requires CounterOk(every, slots, interval, evaluated, done) && every > 0
    ensures done == (evaluated * interval) / every
  {
    QuotientOfMultiples(evaluated, interval, every / interval);
  }

  lemma {:induction false} AllEvaluatedKeeps(w: Watch, answers: seq<Answer>)
    requires WatchOk(w) && w.source
    ensures var n := AllEvaluated(w, answers);
            && WatchOk(n) && n.evaluated == w.evaluated + |answers| && n.interval == w.interval
            && n.operationalInterval == w.operationalInterval && n.memoryInterval == w.memoryInterval
    decreases |answers|
  {
    if answers != [] {
      EvaluatedKeeps(w, answers[0]);
      AllEvaluatedKeeps(Evaluated(w, answers[0]), answers[1..]);
    }
  }

  /**
   After n evaluations of a new object with a live source the check has run n * g / interval times
   for each of its intervals, g being the common one.
   */
  lemma ChecksAfter(w: Watch, answers: seq<Answer>)
    requires WatchOk(w) && w.source && w.evaluated == 0
    ensures w.operationalInterval > 0 ==>
      AllEvaluated(w, answers).checks == (|answers| * w.interval) / w.operationalInterval
    ensures w.memoryInterval > 0 ==>
      AllEvaluated(w, answers).measured == (|answers| * w.interval) / w.memoryInterval
  {
    AllEvaluatedKeeps(w, answers);
    var n := AllEvaluated(w, answers);
    if w.operationalInterval > 0 {
      CountsFromCounter(n.operationalInterval, n.operationalSlots, n.interval, n.evaluated, n.checks);
    }
    if w.memoryInterval > 0 {
      CountsFromCounter(n.memoryInterval, n.memorySlots, n.interval, n.evaluated, n.measured);
    }
  }

  // ----- A scheduling pass -----

  /** No slot is moved past what 64 bits hold. */
  predicate Fits(w: Watch, time: nat) {
    time + w.interval < UINT64 && w.nextSlot < UINT64
  }

  /** Evaluated, then moved on. */
  function Passed(w: Watch, time: nat, a: Answer): Watch
    requires 0 < w.interval < UINT32
  {
    if w.active && w.nextSlot <= time then Evaluated(w, a).(nextSlot := Moved(w.nextSlot, w.interval, time)) else w
  }

  /** The least slot of the active objects among the first n, or all ones. */
  function LeastSlot(watches: seq<Watch>, n: nat): nat
    requires n <= |watches|
  {
    if n == 0 then UINT64 - 1
    else
      var before := LeastSlot(watches, n - 1);
      if watches[n - 1].active && watches[n - 1].nextSlot < before then watches[n - 1].nextSlot else before
  }

  lemma {:induction false} LeastSlotIsLeast(watches: seq<Watch>, n: nat)
    requires n <= |watches|
    ensures LeastSlot(watches, n) < UINT64
    ensures forall i :: 0 <= i < n && watches[i].active ==> LeastSlot(watches, n) <= watches[i].nextSlot
    ensures LeastSlot(watches, n) == UINT64 - 1
         || exists i :: 0 <= i < n && watches[i].active && watches[i].nextSlot == LeastSlot(watches, n)
  {
    if n > 0 { LeastSlotIsLeast(watches, n - 1); }
  }

  lemma {:induction false} LeastSlotDepends(a: seq<Watch>, b: seq<Watch>, n: nat)
    requires n <= |a| && n <= |b| && a[..n] == b[..n]
    ensures LeastSlot(a, n) == LeastSlot(b, n)
  {
    if n > 0 {
      assert a[..n - 1] == a[..n][..n - 1] == b[..n - 1];
      assert a[n - 1] == a[..n][n - 1] == b[n - 1];
      LeastSlotDepends(a, b, n - 1);
    }
  }

  /** A pass evaluates exactly the active objects that are due and moves exactly their slots, in phase. */
  lemma PassedDue(w: Watch, time: nat, a: Answer)
    requires 0 < w.interval < UINT32
    ensures var n := Passed(w, time, a);
            && (w.active && w.nextSlot <= time ==> n.nextSlot >= time && n.evaluated == w.evaluated + Counted(w.source))
            && (!w.active || w.nextSlot > time ==> n == w)
    ensures exists k: nat :: Passed(w, time, a).nextSlot == SlotAt(w.nextSlot, k, w.interval)
    ensures w.active && w.nextSlot <= time ==> forall k: nat ::
      SlotAt(w.nextSlot, k, w.interval) >= time ==> Passed(w, time, a).nextSlot <= SlotAt(w.nextSlot, k, w.interval)
  {
    if w.active && w.nextSlot <= time {
      var k := MovedIsLeast(w.nextSlot, w.interval, time);
      forall j: nat | SlotAt(w.nextSlot, j, w.interval) >= time
        ensures Moved(w.nextSlot, w.interval, time) <= SlotAt(w.nextSlot, j, w.interval)
      {
        if j > k { LaterIsMore(w.nextSlot, j, k, w.interval); }
      }
    } else {
      assert SlotAt(w.nextSlot, 0, w.interval) == w.nextSlot;
    }
  }

  /** The plugin appears, with or without the memory interface. */
  function Appeared(w: Watch, memory: bool): Watch {
    if memory then w.(active := true, source := true, operational := true) else w.(active := true)
  }

  function Vanished(w: Watch): Watch {
    w.(active := false, source := false, operational := false)
  }

  datatype Event = Pass(time: nat, answer: Answer) | Appears(memory: bool) | Vanishes

  function Seen(w: Watch, e: Event): (after: Watch)
    requires 0 < w.interval < UINT32
    ensures after.interval == w.interval
  {
    match e
    case Pass(time, a) => Passed(w, time, a)
    case Appears(memory) => Appeared(w, memory)
    case Vanishes => Vanished(w)
  }

  function AllSeen(w: Watch, events: seq<Event>): (after: Watch)
    requires 0 < w.interval < UINT32
    ensures after.interval == w.interval
    decreases |events|
  {
    if events == [] then w else AllSeen(Seen(w, events[0]), events[1..])
  }

  /** Whether an event is a pass that evaluates the object. */
  predicate Evaluates(w: Watch, e: Event) {
    e.Pass? && w.active && w.source && w.nextSlot <= e.time
  }

  function Evaluations(w: Watch, events: seq<Event>): nat
    requires 0 < w.interval < UINT32
    decreases |events|
  {
    if events == [] then 0 else Counted(Evaluates(w, events[0])) + Evaluations(Seen(w, events[0]), events[1..])
  }

  lemma {:induction false} AllSeenKeeps(w: Watch, events: seq<Event>)
    requires WatchOk(w)
    ensures var n := AllSeen(w, events);
            && WatchOk(n) && n.evaluated == w.evaluated + Evaluations(w, events)
            && n.operationalInterval == w.operationalInterval && n.memoryInterval == w.memoryInterval
    decreases |events|
  {
    if events != [] {
      if events[0].Pass? { EvaluatedKeeps(w, events[0].answer); }
      AllSeenKeeps(Seen(w, events[0]), events[1..]);
    }
  }

  /**
   The same for a new object, however passes, activations and deactivations come: what counts are
   the passes that find it active, due and with a live source.
   */
  lemma ChecksOverEvents(w: Watch, events: seq<Event>)
    requires WatchOk(w) && w.evaluated == 0
    ensures w.operationalInterval > 0 ==>
      AllSeen(w, events).checks == (Evaluations(w, events) * w.interval) / w.operationalInterval
    ensures w.memoryInterval > 0 ==>
      AllSeen(w, events).measured == (Evaluations(w, events) * w.interval) / w.memoryInterval
  {
    AllSeenKeeps(w, events);
    var n := AllSeen(w, events);
    if w.operationalInterval > 0 {
      CountsFromCounter(n.operationalInterval, n.operationalSlots, n.interval, n.evaluated, n.checks);
    }
    if w.memoryInterval > 0 {
      CountsFromCounter(n.memoryInterval, n.memorySlots, n.interval, n.evaluated, n.measured);
    }
  }

  /** The latest pass that finds the object active. */
  function Latest(active: bool, events: seq<Event>): nat
    decreases |events|
  {
    if events == [] then 0
    else
      match events[0]
      case Pass(time, _) => Max(if active then time else 0, Latest(active, events[1..]))
      case Appears(_) => Latest(true, events[1..])
      case Vanishes => Latest(false, events[1..])
  }

  lemma {:induction false} SlotAfterAll(w: Watch, events: seq<Event>)
    requires 0 < w.interval < UINT32
    ensures AllSeen(w, events).nextSlot == Moved(w.nextSlot, w.interval, Latest(w.active, events))
    decreases |events|
  {
    if events != [] {
      SlotAfterAll(Seen(w, events[0]), events[1..]);
      if events[0].Pass? && w.active {
        MovedTwice(w.nextSlot, w.interval, events[0].time, Latest(true, events[1..]));
      }
    }
  }

  /**
   However the passes come and the plugin appears and vanishes between them, the slot is the least
   one in its phase that is not before the latest pass that found the object active: it does not drift.
   */
  lemma PhaseKept(w: Watch, events: seq<Event>) returns (k: nat)
    requires 0 < w.interval < UINT32
    ensures AllSeen(w, events).nextSlot == SlotAt(w.nextSlot, k, w.interval) >= Latest(w.active, events)
    ensures forall j: nat :: j < k ==> SlotAt(w.nextSlot, j, w.interval) < Latest(w.active, events)
  {
    SlotAfterAll(w, events);
    k := MovedIsLeast(w.nextSlot, w.interval, Latest(w.active, events));
  }

  /** An object is due again at once exactly when its slot was a whole number of intervals ago. */
  lemma DueAgainExactly(w: Watch, time: nat, a: Answer)
    requires 0 < w.interval < UINT32 && w.active && w.nextSlot <= time
    ensures Passed(w, time, a).nextSlot <= time <==> (time - w.nextSlot) % w.interval == 0
  {
    MovedOntoTime(w.nextSlot, w.interval, time);
  }

  // ----- The objects -----

  /** A 32-bit subtraction. */
  method Less(slots: nat, interval: nat) returns (left: nat)
    requires interval < UINT32
    ensures left == RunDown(slots, interval)
  {
    left := if slots >= interval then slots - interval else slots + UINT32 - interval;
  }

  class MonitorObject {
    const operationalInterval: nat
    const memoryInterval: nat
    const memoryThreshold: nat
    const interval: nat
    var operationalSlots: nat
    var memorySlots: nat
    var nextSlot: nat
    var operational: bool
    var source: bool
    var active: bool
    ghost var evaluated: nat
    ghost var checks: nat
    ghost var measured: nat

    constructor (operationalInterval: nat, memoryInterval: nat, memoryThreshold: nat, absTime: nat)
      requires operationalInterval < UINT32 && memoryInterval < UINT32
      requires operationalInterval != 0 || memoryInterval != 0
      ensures WatchOk(Value())
      ensures Value() == Watch(operationalInterval, memoryInterval, (memoryThreshold * 1024) % UINT64,
                               operationalInterval, memoryInterval, absTime,
                               Gcd(operationalInterval, memoryInterval), false, false, false, 0, 0, 0)
    {
      this.operationalInterval, this.memoryInterval := operationalInterval, memoryInterval;
      this.memoryThreshold := (memoryThreshold * 1024) % UINT64;
      operationalSlots, memorySlots, nextSlot := operationalInterval, memoryInterval, absTime;
      operational, source, active := false, false, false;
      evaluated, checks, measured := 0, 0, 0;
      interval := Gcd(operationalInterval, memoryInterval);
      NewCounters(operationalInterval, memoryInterval);
    }

    ghost function Value(): Watch
      reads this
    {
      Watch(operationalInterval, memoryInterval, memoryThreshold, operationalSlots, memorySlots, nextSlot, interval,
            operational, source, active, evaluated, checks, measured)
    }

    /** The memory interface of an activated plugin comes, or goes. */
    method Set(memory: bool)
      modifies this
      ensures Value() == old(Value()).(source := memory, operational := memory)
    {
      source, operational := memory, memory;
    }

    method Active(active: bool)
      modifies this
      ensures Value() == old(Value()).(active := active)
    {
      this.active := active;
    }

    /** The first half of Evaluate: the operational check, when its counter is run down. */
    method Check(a: Answer) returns (failed: bool)
      requires interval < UINT32
      modifies this`operationalSlots, this`operational, this`checks
      ensures var due := Due(operationalInterval, old(operationalSlots), interval);
              && operational == (if due then a.operational else old(operational))
              && checks == old(checks) + Counted(due) && failed == (due && !a.operational)
      ensures operationalSlots == SlotsAfter(operationalInterval, old(operationalSlots), interval)
    {
      operationalSlots := Less(operationalSlots, interval);
      failed := false;
      if operationalInterval != 0 && operationalSlots == 0 {
        operational := a.operational;
        checks := checks + 1;
        failed := !operational;
        operationalSlots := operationalInterval;
      }
    }

    /** The second half: the measurement, when its counter is run down. */
    method Measure(a: Answer) returns (exceeded: bool)
      requires interval < UINT32
      modifies this`memorySlots, this`measured
      ensures var due := Due(memoryInterval, old(memorySlots), interval);
              measured == old(measured) + Counted(due)
              && exceeded == (due && memoryThreshold != 0 && a.resident > memoryThreshold)
      ensures memorySlots == SlotsAfter(memoryInterval, old(memorySlots), interval)
    {
      memorySlots := Less(memorySlots, interval);
      exceeded := false;
      if memoryInterval != 0 && memorySlots == 0 {
        measured := measured + 1;
        exceeded := memoryThreshold != 0 && a.resident > memoryThreshold;
        memorySlots := memoryInterval;
      }
    }

    method Evaluate(a: Answer) returns (status: Status)
      requires 0 < interval < UINT32
      modifies this
      ensures Value() == Evaluated(old(Value()), a) && status == StatusOf(old(Value()), a)
    {
      status := Status(false, false);
      if source {
        evaluated := evaluated + 1;
        var failed := Check(a);
        var exceeded := Measure(a);
        status := Status(failed, exceeded);
      }
    }

    method Retrigger(currentSlot: nat)
      requires 0 < interval && currentSlot + interval < UINT64 && nextSlot < UINT64
      modifies this`nextSlot
      ensures nextSlot == Moved(old(nextSlot), interval, currentSlot) < UINT64
    {
      while nextSlot < currentSlot
        invariant Moved(nextSlot, interval, currentSlot) == Moved(old(nextSlot), interval, currentSlot)
        invariant nextSlot < UINT64
        decreases currentSlot - nextSlot
      {
        nextSlot := (nextSlot + interval) % UINT64;
      }
    }
  }

  lemma NewCounters(operationalInterval: nat, memoryInterval: nat)
    requires operationalInterval < UINT32 && memoryInterval < UINT32
    requires operationalInterval != 0 || memoryInterval != 0
    ensures var g := Gcd(operationalInterval, memoryInterval);
            && 0 < g < UINT32 && CounterOk(operationalInterval, operationalInterval, g, 0, 0)
            && CounterOk(memoryInterval, memoryInterval, g, 0, 0)
  {
    var g := Gcd(operationalInterval, memoryInterval);
    GcdPositive(operationalInterval, memoryInterval);
    GcdDivides(operationalInterval, memoryInterval);
    NewCounter(operationalInterval, g);
    NewCounter(memoryInterval, g);
  }

  lemma NewCounter(every: nat, g: nat)
    requires g > 0 && Divides(g, every)
    ensures CounterOk(every, every, g, 0, 0) && (every > 0 ==> g <= every)
  {
    var q: nat :| every == g * q;
    if every > 0 {
      QuotientIs(every, g, q, 0);
      Positive(g, q);
      QuotientIs(0, q, 0, 0);
    }
  }

  // ----- The job -----

  ghost function Values(monitor: seq<MonitorObject>): (v: seq<Watch>)
    reads monitor
    ensures |v| == |monitor|
  {
    seq(|monitor|, i requires 0 <= i < |monitor| reads monitor => monitor[i].Value())
  }

  ghost predicate AllOk(watches: seq<Watch>, time: nat) {
    forall i :: 0 <= i < |watches| ==> 0 < watches[i].interval < UINT32 && Fits(watches[i], time)
  }

  /** The first n objects have been passed. */
  ghost function PassedUpTo(watches: seq<Watch>, time: nat, answers: nat -> Answer, n: nat): (after: seq<Watch>)
    requires AllOk(watches, time) && n <= |watches|
    ensures |after| == |watches|
  {
    seq(|watches|, i requires 0 <= i < |watches| => if i < n then Passed(watches[i], time, answers(i)) else watches[i])
  }

  datatype Reason = Failure | MemoryExceeded

  /** The plugin of the object at this index is to be shut down. */
  datatype Shutdown = Shutdown(index: nat, reason: Reason)

  /** What a pass finds out about an object. */
  function StatusIn(w: Watch, time: nat, a: Answer): Status {
    if w.active && w.nextSlot <= time then StatusOf(w, a) else Status(false, false)
  }

  function ShutdownFor(index: nat, status: Status): seq<Shutdown> {
    if status.notOperational || status.exceededMemory then
      [Shutdown(index, if status.exceededMemory then MemoryExceeded else Failure)]
    else []
  }

  /** The shutdowns among the first n. */
  function Failing(watches: seq<Watch>, time: nat, answers: nat -> Answer, n: nat): seq<Shutdown>
    requires n <= |watches|
  {
    if n == 0 then []
    else Failing(watches, time, answers, n - 1) + ShutdownFor(n - 1, StatusIn(watches[n - 1], time, answers(n - 1)))
  }

  lemma PassedOneMore(watches: seq<Watch>, time: nat, answers: nat -> Answer, n: nat)
    requires AllOk(watches, time) && n < |watches|
    ensures PassedUpTo(watches, time, answers, n)[n] == watches[n]
    ensures PassedUpTo(watches, time, answers, n + 1)
         == PassedUpTo(watches, time, answers, n)[n := Passed(watches[n], time, answers(n))]
  {
  }

  lemma LeastSlotAfter(watches: seq<Watch>, n: nat, w: Watch)
    requires n < |watches|
    ensures LeastSlot(watches[n := w], n + 1)
         == if w.active && w.nextSlot < LeastSlot(watches, n) then w.nextSlot else LeastSlot(watches, n)
  {
    assert watches[n := w][..n] == watches[..n];
    LeastSlotDepends(watches, watches[n := w], n);
  }

  /** When the job is to run next: now, at a time, or not before another object becomes active. */
  datatype Wake = Now | At(time: nat) | Never

  /** An active object of which the slot is to come, and none of another active one comes before. */
  predicate IsNext(watches: seq<Watch>, i: nat) {
    && i < |watches| && watches[i].active && watches[i].nextSlot < UINT64 - 1
    && forall j :: 0 <= j < |watches| && watches[j].active ==> watches[i].nextSlot <= watches[j].nextSlot
  }

  /** There is no next object, or its slot is past, or the job is put off until a millisecond after it. */
  predicate WakesFor(watches: seq<Watch>, now: nat, wake: Wake) {
    match wake
    case Never => forall i :: 0 <= i < |watches| && watches[i].active ==> watches[i].nextSlot >= UINT64 - 1
    case Now => exists i :: 0 <= i < |watches| && IsNext(watches, i) && watches[i].nextSlot < now
    case At(t) => exists i :: 0 <= i < |watches| && IsNext(watches, i) && watches[i].nextSlot >= now
                              && t == (watches[i].nextSlot + 1000) % UINT64
  }

  lemma LeastSlotWakes(watches: seq<Watch>, least: nat)
    requires least == LeastSlot(watches, |watches|)
    ensures least < UINT64
    ensures least == UINT64 - 1 <==> WakesFor(watches, 0, Never)
    ensures least < UINT64 - 1 ==> exists i :: 0 <= i < |watches| && IsNext(watches, i) && watches[i].nextSlot == least
  {
    LeastSlotIsLeast(watches, |watches|);
    if least < UINT64 - 1 {
      var i :| 0 <= i < |watches| && watches[i].active && watches[i].nextSlot == least;
      assert IsNext(watches, i);
    }
  }

  class MonitorObjects {
    var monitor: seq<MonitorObject>

    constructor ()
      ensures monitor == []
    {
      monitor := [];
    }

    /** A plugin appears, found under its callsign at position i, or not found at the end; the job is woken up. */
    method Activated(i: nat, memory: bool) returns (submit: bool)
      requires i <= |monitor| && Distinct(monitor)
      modifies if i < |monitor| then {monitor[i]} else {}
      ensures submit == (i < |monitor|)
      ensures Values(monitor)
           == if submit then old(Values(monitor))[i := Appeared(old(monitor[i].Value()), memory)]
              else old(Values(monitor))
    {
      submit := i < |monitor|;
      if submit {
        monitor[i].Active(true);
        if memory { monitor[i].Set(memory); }
      }
    }

    method Deactivated(i: nat)
      requires i <= |monitor| && Distinct(monitor)
      modifies if i < |monitor| then {monitor[i]} else {}
      ensures Values(monitor)
           == if i < |monitor| then old(Values(monitor))[i := Vanished(old(monitor[i].Value()))]
              else old(Values(monitor))
    {
      if i < |monitor| {
        monitor[i].Set(false);
        monitor[i].Active(false);
      }
    }

    /** One turn of the loop of Dispatch. */
    method Pass(i: nat, time: nat, a: Answer, least: nat) returns (status: Status, nextSlot: nat)
      requires i < |monitor| && Distinct(monitor)
      requires 0 < monitor[i].interval < UINT32 && Fits(monitor[i].Value(), time)
      modifies monitor[i]
      ensures Values(monitor) == old(Values(monitor))[i := Passed(old(monitor[i].Value()), time, a)]
      ensures nextSlot == if monitor[i].active && monitor[i].nextSlot < least then monitor[i].nextSlot else least
      ensures status == StatusIn(old(monitor[i].Value()), time, a)
    {
      var info := monitor[i];
      status, nextSlot := Status(false, false), least;
      if info.active {
        if info.nextSlot <= time {
          status := info.Evaluate(a);
          info.Retrigger(time);
        }
        if info.nextSlot < nextSlot { nextSlot := info.nextSlot; }
      }
    }

    /** The end of Dispatch, with the least slot of the active objects. */
    method Reschedule(nextSlot: nat, now: nat) returns (wake: Wake)
      requires nextSlot == LeastSlot(Values(monitor), |monitor|)
      ensures WakesFor(Values(monitor), now, wake)
    {
      LeastSlotWakes(Values(monitor), nextSlot);
      if nextSlot == UINT64 - 1 {
        wake := Never;
      } else if nextSlot < now {
        wake := Now;
      } else {
        wake := At((nextSlot + 1000) % UINT64);
      }
    }

    /**
     The job: every active object that is due is evaluated and moved on, those that fail are told
     to be shut down, and the least slot of the active ones is when to wake up again.
     */
    method Dispatch(scheduledTime: nat, now: nat, answers: nat -> Answer)
      returns (shutdowns: seq<Shutdown>, wake: Wake)
      requires Distinct(monitor) && AllOk(Values(monitor), scheduledTime)
      modifies monitor
      ensures Values(monitor) == PassedUpTo(old(Values(monitor)), scheduledTime, answers, |monitor|)
      ensures shutdowns == Failing(old(Values(monitor)), scheduledTime, answers, |monitor|)
      ensures WakesFor(Values(monitor), now, wake)
    {
      ghost var before := Values(monitor);
      var nextSlot := UINT64 - 1;
      shutdowns := [];
      assert PassedUpTo(before, scheduledTime, answers, 0) == before;
      for i: nat := 0 to |monitor|
        invariant Values(monitor) == PassedUpTo(before, scheduledTime, answers, i)
        invariant nextSlot == LeastSlot(Values(monitor), i)
        invariant shutdowns == Failing(before, scheduledTime, answers, i)
      {
        PassedOneMore(before, scheduledTime, answers, i);
        assert monitor[i].Value() == Values(monitor)[i] == before[i];
        LeastSlotAfter(Values(monitor), i, Passed(before[i], scheduledTime, answers(i)));
        var status;
        status, nextSlot := Pass(i, scheduledTime, answers(i), nextSlot);
        shutdowns := shutdowns + ShutdownFor(i, status);
      }
      wake := Reschedule(nextSlot, now);
    }
  }
}
