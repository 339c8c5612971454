/**
 What sources answer and what is told of it: every state that is loaded for a new proxy is one that
 its source answered, and no new proxy goes unloaded while it is linked.
 */
module LinkAnswers {
  import opened Lifecycle
  import opened LinkLimits
  import opened LinkOutlook
  import opened LinkRuns
  import opened LinkSteps

  predicate NoLoads(trace: seq<Step>) {
    forall i :: 0 <= i < |trace| ==> !trace[i].Loading?
  }

  /** The last of the steps loads this answer for the proxy, and no other step loads. */
  predicate LoadsLast(trace: seq<Step>, id: nat, answer: State) {
    trace != [] && trace[|trace| - 1] == Loading(id, answer) && NoLoads(trace[..|trace| - 1])
  }

  /** A source answered so when at most n windows were still to come. */
  ghost predicate AnsweredBy(answer: State, source: nat, n: nat, stateOf: (nat, nat) -> State) {
    exists k: nat :: k <= n && answer == stateOf(source, k)
  }

  ghost predicate Answer(s: Step, proxies: seq<Proxy>, n: nat, stateOf: (nat, nat) -> State) {
    s.Loading? ==> s.id < |proxies| && AnsweredBy(s.answer, proxies[s.id].source, n, stateOf)
  }

  predicate LoadedIn(trace: seq<Step>, id: nat) {
    exists i :: 0 <= i < |trace| && trace[i].Loading? && trace[i].id == id
  }

  /** All that is loaded was answered, and the linked ones of the proxies from a number on are loaded. */
  ghost predicate Honest(trace: seq<Step>, from: nat, proxies: seq<Proxy>, n: nat, stateOf: (nat, nat) -> State) {
    && (forall i :: 0 <= i < |trace| ==> Answer(trace[i], proxies, n, stateOf))
    && (forall id: nat :: from <= id < |proxies| && proxies[id].linked ==> LoadedIn(trace, id))
  }

  lemma LoadIsHonest(trace: seq<Step>, proxies: seq<Proxy>, n: nat, stateOf: (nat, nat) -> State)
    requires |proxies| > 0
    requires var id := |proxies| - 1;
             LoadsLast(trace, id, stateOf(proxies[id].source, n)) || (trace == [] && !proxies[id].linked)
    ensures Honest(trace, |proxies| - 1, proxies, n, stateOf)
  {
    if trace != [] {
      var last := |trace| - 1;
      assert LoadedIn(trace, trace[last].id);
      forall i | 0 <= i < |trace| ensures Answer(trace[i], proxies, n, stateOf) {
        if i < last { assert trace[..last][i] == trace[i]; }
      }
    }
  }

  lemma HonestAfter(first: seq<Step>, trace: seq<Step>, from: nat, proxies: seq<Proxy>, n: nat, more: nat,
      stateOf: (nat, nat) -> State)
    requires NoLoads(first) && Honest(trace, from, proxies, n, stateOf) && n <= more
    ensures Honest(first + trace, from, proxies, more, stateOf)
  {
    forall i | 0 <= i < |first + trace| ensures Answer((first + trace)[i], proxies, more, stateOf) {
      if i >= |first| { assert Answer(trace[i - |first|], proxies, n, stateOf); }
    }
    forall id: nat | LoadedIn(trace, id) ensures LoadedIn(first + trace, id) {
      LoadedInEither(first, trace, id);
    }
  }

  lemma HonestBefore(trace: seq<Step>, from: nat, last: seq<Step>, proxies: seq<Proxy>, n: nat,
      stateOf: (nat, nat) -> State)
    requires NoLoads(last) && Honest(trace, from, proxies, n, stateOf)
    ensures Honest(trace + last, from, proxies, n, stateOf)
  {
    forall i | 0 <= i < |trace + last| ensures Answer((trace + last)[i], proxies, n, stateOf) {
      if i < |trace| { assert Answer(trace[i], proxies, n, stateOf); }
    }
    forall id: nat | LoadedIn(trace, id) ensures LoadedIn(trace + last, id) {
      LoadedInEither(trace, last, id);
    }
  }

  lemma LoadedInEither(first: seq<Step>, second: seq<Step>, id: nat)
    requires LoadedIn(first, id) || LoadedIn(second, id)
    ensures LoadedIn(first + second, id)
  {
    if LoadedIn(first, id) {
      var i :| 0 <= i < |first| && first[i].Loading? && first[i].id == id;
      assert (first + second)[i] == first[i];
    } else {
      var i :| 0 <= i < |second| && second[i].Loading? && second[i].id == id;
      assert (first + second)[|first| + i] == second[i];
    }
  }

  // ----- Runs keep the sources, and what is unlinked stays so -----

  ghost predicate Grown(before: seq<Proxy>, after: seq<Proxy>) {
    && |before| <= |after|
    && forall id :: 0 <= id < |before| ==>
         after[id].source == before[id].source && (after[id].linked ==> before[id].linked)
  }

  lemma StepGrows(b: Bridge, s: Step)
    ensures Grown(b.link.proxies, Apply(b, s).link.proxies)
  {
    match s
    case RemoteDestroyed(c) => DestroyGrows(b.link, c);
    case Disconnected => FlushGrows(b.link);
    case _ =>
  }

  lemma DestroyGrows(m: Link, c: string)
    ensures Grown(m.proxies, OnDestroy(m, c).proxies)
  {
  }

  lemma FlushGrows(m: Link)
    ensures Grown(m.proxies, OnFlush(m).proxies)
  {
  }

  lemma {:induction false} RunGrows(b: Bridge, steps: seq<Step>)
    ensures Grown(b.link.proxies, After(b, steps).link.proxies)
    decreases |steps|
  {
    if steps != [] {
      StepGrows(b, steps[0]);
      RunGrows(Apply(b, steps[0]), steps[1..]);
    }
  }

  lemma HonestGrown(trace: seq<Step>, from: nat, before: seq<Proxy>, after: seq<Proxy>, n: nat,
      stateOf: (nat, nat) -> State)
    requires Honest(trace, from, before, n, stateOf) && Grown(before, after)
    ensures forall i :: 0 <= i < |trace| ==> Answer(trace[i], after, n, stateOf)
    ensures forall id: nat :: from <= id < |before| && after[id].linked ==> LoadedIn(trace, id)
  {
    forall i | 0 <= i < |trace| ensures Answer(trace[i], after, n, stateOf) {
      assert Answer(trace[i], before, n, stateOf);
    }
  }

  lemma BothAnswered(first: seq<Step>, second: seq<Step>, proxies: seq<Proxy>, k: nat, n: nat,
      stateOf: (nat, nat) -> State)
    requires k <= n && forall i :: 0 <= i < |first| ==> Answer(first[i], proxies, n, stateOf)
    requires forall i :: 0 <= i < |second| ==> Answer(second[i], proxies, k, stateOf)
    ensures forall i :: 0 <= i < |first + second| ==> Answer((first + second)[i], proxies, n, stateOf)
  {
    forall i | 0 <= i < |first + second| ensures Answer((first + second)[i], proxies, n, stateOf) {
      if i < |first| {
        assert Answer(first[i], proxies, n, stateOf);
      } else {
        assert Answer(second[i - |first|], proxies, k, stateOf);
      }
    }
  }

  /** One honest run after another. */
  lemma HonestOn(first: seq<Step>, from: nat, m: Bridge, second: seq<Step>, n: Bridge, k: nat, windows: nat,
      stateOf: (nat, nat) -> State)
    requires Honest(first, from, m.link.proxies, windows, stateOf) && Leads(m, second, n) && k <= windows
    requires Honest(second, |m.link.proxies|, n.link.proxies, k, stateOf)
    ensures Honest(first + second, from, n.link.proxies, windows, stateOf)
  {
    RunGrows(m, second);
    HonestGrown(first, from, m.link.proxies, n.link.proxies, windows, stateOf);
    BothAnswered(first, second, n.link.proxies, k, windows, stateOf);
    forall id: nat | from <= id < |n.link.proxies| && n.link.proxies[id].linked ensures LoadedIn(first + second, id) {
      LoadedInEither(first, second, id);
    }
  }

  /** And a run that makes and loads nothing after it. */
  lemma HonestThen(first: seq<Step>, from: nat, m: Bridge, second: seq<Step>, n: Bridge, windows: nat,
      stateOf: (nat, nat) -> State)
    requires Honest(first, from, m.link.proxies, windows, stateOf) && Leads(m, second, n) && NoLoads(second)
    requires |n.link.proxies| == |m.link.proxies|
    ensures Honest(first + second, from, n.link.proxies, windows, stateOf)
  {
    HonestOn(first, from, m, second, n, windows, windows, stateOf);
  }

  // ----- What a quiet dispatch tells of the plugins that waited -----

  /** Active and unavailable plugins are told to be that, all others to be deactivated. */
  predicate Tells(answer: State, told: State) {
    match answer
    case Activated => told == Activated
    case Unavailable => told == Unavailable
    case _ => told == Deactivated
  }

  /** A proxy made since is told created, and once the state that the source answered. */
  ghost predicate ToldOfSource(b: Bridge, c: string, made: nat, answer: State) {
    && c in b.link.shells && made <= b.link.shells[c] < |b.link.proxies|
    && exists told :: Tells(answer, told)
         && About(b.link.log, b.link.shells[c]) == [Created(b.link.shells[c]), Reported(b.link.shells[c], told)]
  }

  lemma {:induction false} LoadsOfLoaded(trace: seq<Step>, id: nat)
    requires LoadedIn(trace, id)
    ensures Loads(trace, id) != []
    decreases |trace|
  {
    var i :| 0 <= i < |trace| && trace[i].Loading? && trace[i].id == id;
    if i > 0 {
      assert trace[1..][i - 1] == trace[i];
      LoadsOfLoaded(trace[1..], id);
    }
  }

  lemma {:induction false} LoadsAreAnswers(trace: seq<Step>, id: nat, proxies: seq<Proxy>, n: nat,
      stateOf: (nat, nat) -> State)
    requires id < |proxies| && forall i :: 0 <= i < |trace| ==> Answer(trace[i], proxies, n, stateOf)
    ensures forall j :: 0 <= j < |Loads(trace, id)| ==> AnsweredBy(Loads(trace, id)[j], proxies[id].source, n, stateOf)
    decreases |trace|
  {
    if trace != [] {
      assert trace == [trace[0]] + trace[1..];
      LoadsSplit(trace[0], trace[1..], id);
      forall i | 0 <= i < |trace[1..]| ensures Answer(trace[1..][i], proxies, n, stateOf) {
        assert trace[1..][i] == trace[i + 1];
      }
      LoadsAreAnswers(trace[1..], id, proxies, n, stateOf);
      assert Answer(trace[0], proxies, n, stateOf);
      assert Loads([trace[0]][1..], id) == [];
    }
  }

  lemma {:induction false} WorkersKeepRemote(b: Bridge, steps: seq<Step>)
    requires AllWorker(steps)
    ensures After(b, steps).link.remote == b.link.remote
    decreases |steps|
  {
    if steps != [] { WorkersKeepRemote(Apply(b, steps[0]), steps[1..]); }
  }

  lemma ShellIsLinked(m: Link, c: string)
    requires Inv(m) && c in m.shells
    ensures m.shells[c] < |m.proxies| && m.proxies[m.shells[c]].linked
    ensures c in m.remote && m.proxies[m.shells[c]].source == m.remote[c]
  {
    assert CallsignOk(m, c) && IdOk(m, m.shells[c]);
  }

  lemma NewNotes(notes: seq<Note>, id: nat, told: State)
    requires NewlyTold(notes, id) && PhaseOf(notes) == Alive(told) && told != Unset
    ensures notes == [Created(id), Reported(id, told)]
  {
  }

  lemma ShownTells(answer: State)
    ensures Tells(answer, Shown(answer))
  {
  }

  lemma WaitingToldOne(b: Bridge, trace: seq<Step>, n: Bridge, stateOf: (nat, nat) -> State, c: string)
    requires Inv(b.link) && Leads(b, trace, n) && AllWorker(trace) && Awake(b) && b.stage == Idle && Resting(n)
    requires Honest(trace, |b.link.proxies|, n.link.proxies, 0, stateOf) && c in b.link.created
    ensures ToldOfSource(n, c, |b.link.proxies|, stateOf(b.link.created[c], 0))
  {
    assert CallsignOk(b.link, c);
    WaitingIsLoaded(b, trace, c);
    RunKeeps(b, trace);
    RunStaysAwake(b, trace);
    ShellIsLinked(n.link, c);
    WorkersKeepRemote(b, trace);
    var id, answer := n.link.shells[c], stateOf(b.link.created[c], 0);
    LoadsOfLoaded(trace, id);
    LoadsAreAnswers(trace, id, n.link.proxies, 0, stateOf);
    var answers := Loads(trace, id);
    assert answers[|answers| - 1] == answer;
    DueIsTold(n, c, id, Shown(answer));
    QuietDispatchCreates(b, trace);
    NewNotes(About(n.link.log, id), id, Shown(answer));
    ShownTells(answer);
  }

  /** Every plugin that waited has a proxy that was told so. */
  lemma WaitingTold(b: Bridge, trace: seq<Step>, n: Bridge, stateOf: (nat, nat) -> State)
    requires Inv(b.link) && Leads(b, trace, n) && AllWorker(trace) && Awake(b) && b.stage == Idle && Resting(n)
    requires Honest(trace, |b.link.proxies|, n.link.proxies, 0, stateOf)
    ensures forall c :: c in b.link.created ==>
      ToldOfSource(n, c, |b.link.proxies|, stateOf(b.link.created[c], 0))
  {
    forall c | c in b.link.created ensures ToldOfSource(n, c, |b.link.proxies|, stateOf(b.link.created[c], 0)) {
      WaitingToldOne(b, trace, n, stateOf, c);
    }
  }
}
