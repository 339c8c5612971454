/**
 What the callback hears of one callsign, whose proxies follow one another: the order of it, and
 exactly when that order breaks.
 */
module LinkOrder {
  import opened Lifecycle
  import opened LinkLimits
  import opened LinkRuns
  import opened LinkSteps

  predicate Of(proxies: seq<Proxy>, id: nat, c: string) {
    id < |proxies| && proxies[id].callsign == c
  }

  /** The notes about the proxies of a callsign. */
  function Heard(log: seq<Note>, proxies: seq<Proxy>, c: string): seq<Note> {
    if log == [] then []
    else
      var before, n := Heard(log[..|log| - 1], proxies, c), log[|log| - 1];
      if Of(proxies, n.id, c) then before + [n] else before
  }

  predicate Ended(notes: seq<Note>) {
    notes != [] ==> notes[|notes| - 1].Destroyed?
  }

  predicate Open(notes: seq<Note>, id: nat) {
    notes != [] && notes[|notes| - 1].id == id && !notes[|notes| - 1].Destroyed?
  }

  /** A proxy is created when there is none, and anything else is about the one there is. */
  predicate InTurn(before: seq<Note>, n: Note) {
    if n.Created? then Ended(before) else Open(before, n.id)
  }

  predicate Orderly(notes: seq<Note>) {
    forall i :: 0 <= i < |notes| ==> InTurn(notes[..i], notes[i])
  }

  lemma OrderlySnoc(notes: seq<Note>, n: Note)
    ensures Orderly(notes + [n]) <==> Orderly(notes) && InTurn(notes, n)
  {
    var more := notes + [n];
    assert more[..|notes|] == notes && more[|notes|] == n;
    forall i | 0 <= i < |notes| ensures more[..i] == notes[..i] && more[i] == notes[i] {
    }
  }

  // ----- What a step adds -----

  /** The note that a step of the worker adds. */
  function Noted(m: Link, s: Step): seq<Note> {
    match s
    case Destroying(d) => if d in m.destructed then [Destroyed(m.destructed[d])] else []
    case Creating(d) => if d in m.created then [Created(|m.proxies|)] else []
    case Reporting(d) =>
      if d in m.shells && m.shells[d] < |m.proxies| && m.proxies[m.shells[d]].report != m.proxies[m.shells[d]].state
      then [Reported(m.shells[d], m.proxies[m.shells[d]].report)]
      else []
    case _ => []
  }

  /** The proxies there were keep their callsigns. */
  predicate SameCallsigns(before: seq<Proxy>, after: seq<Proxy>) {
    |before| <= |after| && forall id :: 0 <= id < |before| ==> after[id].callsign == before[id].callsign
  }

  predicate Known(log: seq<Note>, n: nat) {
    forall k :: 0 <= k < |log| ==> log[k].id < n
  }

  lemma StepAdds(b: Bridge, s: Step)
    requires Inv(b.link) && Enabled(b, s)
    ensures Apply(b, s).link.log == b.link.log + Noted(b.link, s)
    ensures SameCallsigns(b.link.proxies, Apply(b, s).link.proxies)
  {
    if s.Destroying? || s.Reporting? { assert CallsignOk(b.link, s.c); }
  }

  lemma StepKnows(b: Bridge, s: Step)
    requires Inv(b.link) && Enabled(b, s) && Known(b.link.log, |b.link.proxies|)
    ensures Known(Apply(b, s).link.log, |Apply(b, s).link.proxies|)
  {
    StepAdds(b, s);
    if s.Destroying? || s.Reporting? { assert CallsignOk(b.link, s.c); }
  }

  lemma {:induction false} HeardOfMore(log: seq<Note>, before: seq<Proxy>, after: seq<Proxy>, c: string)
    requires SameCallsigns(before, after) && Known(log, |before|)
    ensures Heard(log, before, c) == Heard(log, after, c)
    decreases |log|
  {
    if log != [] { HeardOfMore(log[..|log| - 1], before, after, c); }
  }

  lemma HeardSnoc(log: seq<Note>, n: Note, proxies: seq<Proxy>, c: string)
    ensures Heard(log + [n], proxies, c) == Heard(log, proxies, c) + (if Of(proxies, n.id, c) then [n] else [])
  {
    assert (log + [n])[..|log|] == log;
  }

  function HeardOf(m: Link, c: string): seq<Note> {
    Heard(m.log, m.proxies, c)
  }

  /** What is heard of a callsign after a step. */
  lemma StepHeard(b: Bridge, s: Step, c: string)
    requires Inv(b.link) && Enabled(b, s) && Known(b.link.log, |b.link.proxies|)
    ensures var notes, n := Noted(b.link, s), Apply(b, s).link;
            HeardOf(n, c) == HeardOf(b.link, c) + (if notes != [] && Of(n.proxies, notes[0].id, c) then notes else [])
  {
    var n, notes := Apply(b, s).link, Noted(b.link, s);
    StepAdds(b, s);
    HeardOfMore(b.link.log, b.link.proxies, n.proxies, c);
    if notes == [] {
      assert b.link.log + [] == b.link.log;
    } else {
      assert notes == [notes[0]];
      HeardSnoc(b.link.log, notes[0], n.proxies, c);
    }
  }

  // ----- The order, as long as no proxy is made too early -----

  /** A proxy is made while an older one of its callsign still waits to be told destroyed. */
  predicate Early(b: Bridge, s: Step, c: string) {
    s == Creating(c) && c in b.link.destructed
  }

  predicate EverEarly(b: Bridge, steps: seq<Step>, c: string)
    decreases |steps|
  {
    steps != [] && (Early(b, steps[0], c) || EverEarly(Apply(b, steps[0]), steps[1..], c))
  }

  /** What was heard last is about the proxy of the callsign that is there, or queued. */
  predicate InOrder(m: Link, c: string) {
    var notes := HeardOf(m, c);
    && Orderly(notes)
    && !(c in m.shells && c in m.destructed)
    && (c in m.shells ==> Open(notes, m.shells[c]))
    && (c in m.destructed ==> Open(notes, m.destructed[c]))
    && (c !in m.shells && c !in m.destructed ==> Ended(notes))
  }

  lemma EventKeepsOrder(b: Bridge, s: Step, c: string)
    requires Inv(b.link) && Enabled(b, s) && Known(b.link.log, |b.link.proxies|) && InOrder(b.link, c)
    requires Noted(b.link, s) == []
    ensures InOrder(Apply(b, s).link, c)
  {
    StepHeard(b, s, c);
    assert HeardOf(b.link, c) + [] == HeardOf(b.link, c);
  }

  lemma OtherKeepsOrder(b: Bridge, s: Step, c: string)
    requires Inv(b.link) && Enabled(b, s) && Known(b.link.log, |b.link.proxies|) && InOrder(b.link, c)
    requires (s.Destroying? || s.Creating? || s.Reporting?) && s.c != c
    ensures InOrder(Apply(b, s).link, c)
  {
    StepHeard(b, s, c);
    assert CallsignOk(b.link, s.c);
    assert HeardOf(b.link, c) + [] == HeardOf(b.link, c);
  }

  lemma OwnKeepsOrder(b: Bridge, s: Step, c: string)
    requires Inv(b.link) && Enabled(b, s) && Known(b.link.log, |b.link.proxies|) && InOrder(b.link, c)
    requires s == Destroying(c) || (s == Creating(c) && c !in b.link.destructed) || s == Reporting(c)
    ensures InOrder(Apply(b, s).link, c)
  {
    StepHeard(b, s, c);
    assert CallsignOk(b.link, c);
    OrderlySnoc(HeardOf(b.link, c), Noted(b.link, s)[0]);
  }

  lemma StepKeepsOrder(b: Bridge, s: Step, c: string)
    requires Inv(b.link) && Enabled(b, s) && Known(b.link.log, |b.link.proxies|) && InOrder(b.link, c)
    requires !Early(b, s, c)
    ensures InOrder(Apply(b, s).link, c)
  {
    if !(s.Destroying? || s.Creating? || s.Reporting?) {
      EventKeepsOrder(b, s, c);
    } else if s.c != c {
      OtherKeepsOrder(b, s, c);
    } else {
      OwnKeepsOrder(b, s, c);
    }
  }

  // ----- And that it breaks for good otherwise -----

  lemma EarlyBreaksOrder(b: Bridge, c: string)
    requires Inv(b.link) && Enabled(b, Creating(c)) && Known(b.link.log, |b.link.proxies|) && InOrder(b.link, c)
    requires Early(b, Creating(c), c)
    ensures !Orderly(HeardOf(Apply(b, Creating(c)).link, c))
  {
    StepHeard(b, Creating(c), c);
    assert CallsignOk(b.link, c);
    OrderlySnoc(HeardOf(b.link, c), Noted(b.link, Creating(c))[0]);
  }

  lemma {:induction false} StaysBroken(b: Bridge, steps: seq<Step>, c: string)
    requires Inv(b.link) && Runs(b, steps) && Known(b.link.log, |b.link.proxies|) && !Orderly(HeardOf(b.link, c))
    ensures !Orderly(HeardOf(After(b, steps).link, c))
    decreases |steps|
  {
    if steps != [] {
      var s := steps[0];
      StepKeeps(b, s);
      StepKnows(b, s);
      StepHeard(b, s, c);
      assert HeardOf(b.link, c) + [] == HeardOf(b.link, c);
      if Noted(b.link, s) != [] { OrderlySnoc(HeardOf(b.link, c), Noted(b.link, s)[0]); }
      StaysBroken(Apply(b, s), steps[1..], c);
    }
  }

  lemma {:induction false} OrderedFrom(b: Bridge, steps: seq<Step>, c: string)
    requires Inv(b.link) && Runs(b, steps) && Known(b.link.log, |b.link.proxies|) && InOrder(b.link, c)
    ensures Orderly(HeardOf(After(b, steps).link, c)) <==> !EverEarly(b, steps, c)
    decreases |steps|
  {
    if steps != [] {
      var s := steps[0];
      StepKeeps(b, s);
      StepKnows(b, s);
      if Early(b, s, c) {
        EarlyBreaksOrder(b, c);
        StaysBroken(Apply(b, s), steps[1..], c);
      } else {
        StepKeepsOrder(b, s, c);
        OrderedFrom(Apply(b, s), steps[1..], c);
      }
    }
  }

  /**
   Over every run, what is told of a callsign is one proxy after another, each created when the one
   before has been told destroyed, if and only if no proxy was ever made while one of its callsign was
   queued for destruction.
   */
  lemma CallsignOrderExactly(steps: seq<Step>, c: string)
    requires Runs(Start(), steps)
    ensures Orderly(HeardOf(After(Start(), steps).link, c)) <==> !EverEarly(Start(), steps, c)
  {
    OrderedFrom(Start(), steps, c);
  }

  /** It can be: the plugin goes and comes back while the worker is in its second loop. */
  lemma CreatedTwice(c: string)
    ensures Reached(SecondProxy(c)) && HeardOf(SecondProxy(c).link, c) == [Created(0), Created(1)]
    ensures !Orderly([Created(0), Created(1)])
  {
    ReachSecondProxy(c);
    var proxies := SecondProxy(c).link.proxies;
    HeardSnoc([], Created(0), proxies, c);
    HeardSnoc([Created(0)], Created(1), proxies, c);
    assert [] + [Created(0)] == [Created(0)] && [Created(0)] + [Created(1)] == [Created(0), Created(1)];
    OrderlySnoc([Created(0)], Created(1));
  }
}
