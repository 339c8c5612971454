/**
 What a pass of the monitor comes to: which plugins are shut down and why, in terms of what they answer
 and how often they were evaluated; when the next pass is, and what it finds; and who is watched at all.
 */
module MonitorOutcome {
  import opened Common
  import opened Monitor
  import opened Scheduling
  import StateMachine

  // ----- Who is shut down -----

  /** The evaluation at hand is one of those that make up whole periods of a check. */
  predicate AtPeriod(every: nat, w: Watch)
  {
    0 < w.interval <= every && (w.evaluated + 1) % (every / w.interval) == 0
  }

  predicate NotOperational(w: Watch, a: Answer)
  {
    AtPeriod(w.operationalInterval, w) && !a.operational
  }

  predicate ExceedsMemory(w: Watch, a: Answer)
  {
    AtPeriod(w.memoryInterval, w) && w.memoryThreshold > 0 && a.resident > w.memoryThreshold
  }

  /** The object is watched, has an interface to ask, and its slot has come. */
  predicate Asked(w: Watch, time: nat) {
    w.active && w.source && w.nextSlot <= time
  }

  predicate Fails(w: Watch, a: Answer, why: Reason)
  {
    match why
    case MemoryExceeded => ExceedsMemory(w, a)
    case Failure => NotOperational(w, a) && !ExceedsMemory(w, a)
  }

  lemma DueExactly(every: nat, slots: nat, w: Watch, done: nat)
    requires 0 < w.interval < UINT32 && CounterOk(every, slots, w.interval, w.evaluated, done)
    ensures Due(every, slots, w.interval) <==> AtPeriod(every, w)
  {
    if every > 0 {
      var q, r := every / w.interval, w.evaluated % (every / w.interval);
      NextQuotient(w.evaluated, q);
      Positive(w.interval, q - r);
      Subtract(w.interval, q - r, 1);
      if r != q - 1 { Positive(w.interval, q - r - 1); }
    }
  }

  lemma StatusExactly(w: Watch, time: nat, a: Answer)
    requires WatchOk(w)
    ensures StatusIn(w, time, a)
         == Status(Asked(w, time) && NotOperational(w, a), Asked(w, time) && ExceedsMemory(w, a))
  {
    DueExactly(w.operationalInterval, w.operationalSlots, w, w.checks);
    DueExactly(w.memoryInterval, w.memorySlots, w, w.measured);
  }

  /**
   A pass shuts down exactly the plugins that it asks and that, at the end of a whole period of that
   check, use more memory than allowed or say that they are not operational; memory is the reason that
   is given if both hold.
   */
  lemma {:induction false} FailingExactly(watches: seq<Watch>, time: nat, answers: nat -> Answer, n: nat, s: Shutdown)
    requires n <= |watches| && forall i :: 0 <= i < n ==> WatchOk(watches[i])
    ensures s in Failing(watches, time, answers, n)
       <==> s.index < n && Asked(watches[s.index], time) && Fails(watches[s.index], answers(s.index), s.reason)
    decreases n
  {
    if n > 0 {
      FailingExactly(watches, time, answers, n - 1, s);
      StatusExactly(watches[n - 1], time, answers(n - 1));
    }
  }

  predicate InOrder(f: seq<Shutdown>, n: nat) {
    (forall i :: 0 <= i < |f| ==> f[i].index < n) && forall i, j :: 0 <= i < j < |f| ==> f[i].index < f[j].index
  }

  lemma InOrderMore(f: seq<Shutdown>, n: nat, status: Status)
    requires InOrder(f, n)
    ensures InOrder(f + ShutdownFor(n, status), n + 1)
  {
    var tail := ShutdownFor(n, status);
    assert |tail| <= 1 && forall i :: 0 <= i < |tail| ==> tail[i].index == n;
    var more := f + tail;
    forall i | 0 <= i < |more| ensures more[i] == if i < |f| then f[i] else tail[i - |f|] {}
  }

  /** They are shut down in the order of the objects, each once. */
  lemma {:induction false} FailingInOrder(watches: seq<Watch>, time: nat, answers: nat -> Answer, n: nat)
    requires n <= |watches|
    ensures InOrder(Failing(watches, time, answers, n), n)
    decreases n
  {
    if n > 0 {
      FailingInOrder(watches, time, answers, n - 1);
      InOrderMore(Failing(watches, time, answers, n - 1), n - 1, StatusIn(watches[n - 1], time, answers(n - 1)));
    }
  }

  // ----- The next pass -----

  /**
   The job is never left waiting for an object that is due: it stops only with no slot to come, runs
   again at once if a slot is past, and otherwise waits for the least slot.  A pass at the time it is put
   off to finds an object due if and only if that time does not wrap in 64 bits.
   */
  lemma NextPass(watches: seq<Watch>, now: nat, wake: Wake, i: nat, time: nat)
    requires WakesFor(watches, now, wake) && IsNext(watches, i)
    ensures !wake.Never?
    ensures wake.Now? <==> watches[i].nextSlot < now
    ensures wake.Now? && time >= now ==>
      exists j :: 0 <= j < |watches| && watches[j].active && watches[j].nextSlot <= time
    ensures wake.At? && watches[i].nextSlot + 1000 < UINT64 ==> wake.time == watches[i].nextSlot + 1000
    ensures wake.At? ==> ((exists j :: 0 <= j < |watches| && watches[j].active && watches[j].nextSlot <= wake.time)
                          <==> watches[i].nextSlot + 1000 < UINT64)
  {
  }

  /** A pass leaves no object due before its own time, so that it runs again at once only when it took time. */
  lemma WaitsAfterPass(watches: seq<Watch>, time: nat, answers: nat -> Answer, now: nat, wake: Wake)
    requires AllOk(watches, time) && WakesFor(PassedUpTo(watches, time, answers, |watches|), now, wake)
    ensures wake.Now? ==> now > time
  {
    var after := PassedUpTo(watches, time, answers, |watches|);
    forall i | 0 <= i < |watches| && after[i].active ensures after[i].nextSlot >= time {
      PassedDue(watches[i], time, answers(i));
    }
  }

  // ----- Who is watched -----

  function Comes(memory: bool): Event -> bool {
    (e: Event) => e == Appears(true) || (!memory && e == Appears(false))
  }

  function Goes(): Event -> bool {
    (e: Event) => e == Vanishes
  }

  lemma {:induction false} SeenSnoc(w: Watch, events: seq<Event>, e: Event)
    requires 0 < w.interval < UINT32
    ensures AllSeen(w, events + [e]) == Seen(AllSeen(w, events), e)
    decreases |events|
  {
    if events == [] {
      assert [] + [e] == [e] && [e][1..] == [];
    } else {
      assert (events + [e])[1..] == events[1..] + [e];
      SeenSnoc(Seen(w, events[0]), events[1..], e);
    }
  }

  /**
   An object is active if and only if its plugin came and did not go since, and has an interface to ask
   if and only if it came with one and did not go since.
   */
  lemma {:induction false} WatchedExactly(w: Watch, events: seq<Event>)
    requires 0 < w.interval < UINT32 && !w.active && !w.source
    ensures AllSeen(w, events).active <==> StateMachine.LastIs(events, Comes(false), Goes())
    ensures AllSeen(w, events).source <==> StateMachine.LastIs(events, Comes(true), Goes())
    decreases |events|
  {
    if events != [] {
      var before, e := events[..|events| - 1], events[|events| - 1];
      assert events == before + [e];
      WatchedExactly(w, before);
      SeenSnoc(w, before, e);
      StateMachine.LastIsSnoc(before, e, Comes(false), Goes());
      StateMachine.LastIsSnoc(before, e, Comes(true), Goes());
    }
  }

  /** A pass that checks the plugin notes its answer, and any other leaves what was known. */
  lemma OperationalNoted(w: Watch, time: nat, a: Answer)
    requires WatchOk(w)
    ensures Passed(w, time, a).operational
         == if Asked(w, time) && AtPeriod(w.operationalInterval, w) then a.operational else w.operational
  {
    DueExactly(w.operationalInterval, w.operationalSlots, w, w.checks);
  }

  /** A plugin that never says otherwise is operational exactly while it has an interface to ask. */
  lemma {:induction false} OperationalExactly(w: Watch, events: seq<Event>)
    requires 0 < w.interval < UINT32 && w.operational == w.source
    requires forall i :: 0 <= i < |events| && events[i].Pass? ==> events[i].answer.operational
    ensures AllSeen(w, events).operational <==> AllSeen(w, events).source
    decreases |events|
  {
    if events != [] { OperationalExactly(Seen(w, events[0]), events[1..]); }
  }
}
