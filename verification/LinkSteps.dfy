/**
 The bridge link as a state machine: every remote event, every locked segment of the worker job
 and every callback is one step, and any event may fall between two steps of the worker.
 */
module LinkSteps {
  import opened Lifecycle

  /** A ShellProxy: the state the callback was told last and the state it is to be told. */
  datatype Proxy = Proxy(callsign: string, source: nat, state: State, report: State, linked: bool)

  /**
   The link and what surrounds it. Proxies are known by number, in the order in which they were
   made; `log` is what the worker has decided to tell, its last note still to be told while
   `telling`; `remote` are the plugins that live on the far side; `lost` are the proxies that a
   destruction queue entry of the same callsign kept out of the queue.
   */
  datatype Link = Link(
    created: map<string, nat>,
    shells: map<string, nat>,
    destructed: map<string, nat>,
    proxies: seq<Proxy>,
    log: seq<Note>,
    telling: bool,
    remote: map<string, nat>,
    lost: set<nat>)

  const INITIAL := Link(map[], map[], map[], [], [], false, map[], {})

  // ----- ShellProxy -----

  function Turned(p: Proxy, state: State): Proxy {
    if p.state != state then p.(report := state) else p
  }

  /** A remote state as Load reads it: what is neither active nor unavailable counts as deactivated. */
  function Shown(answer: State): (s: State)
    ensures s != Unset && (answer == Activated || answer == Unavailable ==> s == answer)
  {
    if answer != Activated && answer != Unavailable then Deactivated else answer
  }

  // ----- Remote events -----

  function Removed<V>(m: map<string, V>, c: string): map<string, V> {
    m - {c}
  }

  function OnCreated(m: Link, c: string, source: nat): Link {
    m.(remote := m.remote[c := source], created := if c in m.created then m.created else m.created[c := source])
  }

  function With(proxies: seq<Proxy>, id: nat, change: Proxy -> Proxy): seq<Proxy> {
    if id < |proxies| then proxies[id := change(proxies[id])] else proxies
  }

  function Unlinked(p: Proxy): Proxy {
    p.(linked := false)
  }

  /** A shell joins the destruction queue; an entry of the same callsign keeps its place there. */
  function Queue(m: Link, c: string): Link
    requires c in m.shells
  {
    var id := m.shells[c];
    m.(proxies := With(m.proxies, id, Unlinked),
       destructed := if c in m.destructed then m.destructed else m.destructed[c := id],
       lost := if c in m.destructed then m.lost + {id} else m.lost)
  }

  function Retire(m: Link, c: string): Link
    requires c in m.shells
  {
    Queue(m, c).(shells := Removed(m.shells, c))
  }

  function OnDestroy(m: Link, c: string): Link {
    var gone := m.(remote := Removed(m.remote, c));
    if c in m.created then gone.(created := Removed(m.created, c))
    else if c in m.shells then Retire(gone, c)
    else gone
  }

  function OnState(m: Link, c: string, state: State): Link {
    if c in m.shells then m.(proxies := With(m.proxies, m.shells[c], (p: Proxy) => Turned(p, state))) else m
  }

  /** The shells of some callsigns leave for the destruction queue, still entered as shells. */
  function Queuing(m: Link, gone: set<string>): Link {
    m.(proxies := seq(|m.proxies|, id requires 0 <= id < |m.proxies| =>
         if exists c :: c in gone && Is(m.shells, c, id) then Unlinked(m.proxies[id]) else m.proxies[id]),
       destructed := (map c | c in gone && c in m.shells :: m.shells[c]) + m.destructed,
       lost := m.lost + set c | c in gone && c in m.shells && c in m.destructed :: m.shells[c])
  }

  /** The connection is lost: what waits is dropped, every shell leaves for the destruction queue. */
  function OnFlush(m: Link): Link {
    Queuing(m, m.shells.Keys).(created := map[], shells := map[], remote := map[])
  }

  // ----- Locked segments of the worker -----

  /** Decide to tell. */
  function Tell(m: Link, n: Note): Link {
    m.(log := m.log + [n], telling := true)
  }

  function TakeDestructed(m: Link, c: string): Link
    requires c in m.destructed
  {
    Tell(m.(destructed := Removed(m.destructed, c)), Destroyed(m.destructed[c]))
  }

  function TakeCreated(m: Link, c: string): Link
    requires c in m.created
  {
    var id := |m.proxies|;
    Tell(m.(created := Removed(m.created, c),
            proxies := m.proxies + [Proxy(c, m.created[c], Unset, Unset, true)],
            shells := if c in m.shells then m.shells else m.shells[c := id]), Created(id))
  }

  /** The state that Load fetched is written, without the lock of the link. */
  function Loaded(m: Link, id: nat, answer: State): Link {
    m.(proxies := With(m.proxies, id, (p: Proxy) => p.(report := Shown(answer))))
  }

  function TakeReport(m: Link, c: string): Link
    requires c in m.shells && m.shells[c] < |m.proxies|
  {
    var id := m.shells[c];
    var p := m.proxies[id];
    if p.report == p.state then m
    else Tell(m.(proxies := With(m.proxies, id, Caught)), Reported(id, p.report))
  }

  function Caught(p: Proxy): Proxy {
    p.(state := p.report)
  }

  /** The callback has been called. */
  function ToldAll(m: Link): Link {
    m.(telling := false)
  }

  // ----- The invariant -----

  predicate Is(m: map<string, nat>, c: string, id: nat) {
    c in m && m[c] == id
  }

  /** A proxy is in one place, is told to be in the state it has there, and is dead in no place. */
  predicate ProxyOk(p: Proxy, shell: bool, queued: bool, lost: bool, phase: Phase) {
    && (p.report == Unset ==> p.state == Unset)
    && (shell ==> !queued && !lost && p.linked)
    && (queued ==> !lost)
    && (queued || lost ==> !p.linked)
    && phase == (if shell || queued || lost then Alive(p.state) else Dead)
  }

  ghost predicate IdOk(m: Link, id: nat) {
    if id < |m.proxies| then
      var p := m.proxies[id];
      ProxyOk(p, Is(m.shells, p.callsign, id), Is(m.destructed, p.callsign, id), id in m.lost, Track(m.log, id))
    else
      Track(m.log, id) == Unborn && id !in m.lost
  }

  /** The number under a callsign is a proxy of that callsign. */
  predicate EntryOk(proxies: seq<Proxy>, entries: map<string, nat>, c: string) {
    c in entries ==> entries[c] < |proxies| && proxies[entries[c]].callsign == c
  }

  /** A callsign waits, or has a proxy, just when it lives on the far side, and never both. */
  ghost predicate CallsignOk(m: Link, c: string) {
    && EntryOk(m.proxies, m.shells, c) && EntryOk(m.proxies, m.destructed, c)
    && (c in m.remote <==> c in m.created || c in m.shells)
    && !(c in m.created && c in m.shells)
    && (c in m.created ==> m.created[c] == m.remote[c])
    && (c in m.shells ==> m.proxies[m.shells[c]].source == m.remote[c])
  }

  ghost predicate Inv(m: Link) {
    (forall id: nat :: IdOk(m, id)) && (forall c: string :: CallsignOk(m, c))
  }

  lemma InitialInv()
    ensures Inv(INITIAL)
  {
  }

  // ----- Events keep the invariant -----

  lemma CreatedKeeps(m: Link, c: string, source: nat)
    requires Inv(m) && c !in m.remote
    ensures Inv(OnCreated(m, c, source))
  {
    var n := OnCreated(m, c, source);
    forall id: nat ensures IdOk(n, id) { assert IdOk(m, id); }
    forall d: string ensures CallsignOk(n, d) { assert CallsignOk(m, d); }
  }

  lemma RetireKeepsId(m: Link, c: string, id: nat)
    requires c in m.shells && EntryOk(m.proxies, m.shells, c) && IdOk(m, m.shells[c]) && IdOk(m, id)
    ensures IdOk(Retire(m, c), id)
  {
  }

  lemma DestroyKeepsId(m: Link, c: string, id: nat)
    requires c in m.shells ==> EntryOk(m.proxies, m.shells, c) && IdOk(m, m.shells[c])
    requires IdOk(m, id)
    ensures IdOk(OnDestroy(m, c), id)
  {
    var gone := m.(remote := Removed(m.remote, c));
    assert IdOk(gone, id);
    if c !in m.created && c in m.shells {
      assert IdOk(gone, gone.shells[c]);
      RetireKeepsId(gone, c, id);
    }
  }

  lemma DestroyKeepsCallsign(m: Link, c: string, d: string)
    requires CallsignOk(m, c) && CallsignOk(m, d)
    ensures CallsignOk(OnDestroy(m, c), d)
  {
  }

  lemma DestroyKeeps(m: Link, c: string)
    requires Inv(m) && CallsignOk(m, c)
    ensures Inv(OnDestroy(m, c))
  {
    forall id: nat ensures IdOk(OnDestroy(m, c), id) {
      assert IdOk(m, id);
      if c in m.shells { assert IdOk(m, m.shells[c]); }
      DestroyKeepsId(m, c, id);
    }
    forall d: string ensures CallsignOk(OnDestroy(m, c), d) {
      assert CallsignOk(m, d);
      DestroyKeepsCallsign(m, c, d);
    }
  }

  lemma StateKeepsId(m: Link, c: string, state: State, id: nat)
    requires c in m.shells && EntryOk(m.proxies, m.shells, c) && IdOk(m, id) && state != Unset
    ensures IdOk(OnState(m, c, state), id)
  {
  }

  lemma StateKeeps(m: Link, c: string, state: State)
    requires Inv(m) && CallsignOk(m, c) && state != Unset
    ensures Inv(OnState(m, c, state))
  {
    var n := OnState(m, c, state);
    forall id: nat ensures IdOk(n, id) {
      assert IdOk(m, id);
      if c in m.shells { StateKeepsId(m, c, state, id); }
    }
    forall d: string ensures CallsignOk(n, d) { assert CallsignOk(m, d); }
  }

  lemma FlushKeepsId(m: Link, id: nat)
    requires IdOk(m, id) && forall c :: CallsignOk(m, c)
    ensures IdOk(OnFlush(m), id)
  {
    forall c | c in m.shells && m.shells[c] == id ensures id < |m.proxies| && m.proxies[id].callsign == c {
      assert CallsignOk(m, c);
    }
  }

  lemma FlushKeeps(m: Link)
    requires Inv(m)
    ensures Inv(OnFlush(m))
  {
    var n := OnFlush(m);
    forall id: nat ensures IdOk(n, id) { FlushKeepsId(m, id); }
    forall c: string ensures CallsignOk(n, c) { assert CallsignOk(m, c); }
  }

  // ----- The worker keeps the invariant -----

  lemma TakeDestructedKeepsId(m: Link, c: string, id: nat)
    requires c in m.destructed && EntryOk(m.proxies, m.destructed, c) && IdOk(m, m.destructed[c]) && IdOk(m, id)
    ensures IdOk(TakeDestructed(m, c), id)
  {
    TrackSnoc(m.log, Destroyed(m.destructed[c]), id);
  }

  lemma TakeDestructedKeeps(m: Link, c: string)
    requires Inv(m) && c in m.destructed && CallsignOk(m, c)
    ensures Inv(TakeDestructed(m, c))
  {
    var n := TakeDestructed(m, c);
    forall id: nat ensures IdOk(n, id) {
      assert IdOk(m, id) && IdOk(m, m.destructed[c]);
      TakeDestructedKeepsId(m, c, id);
    }
    forall d: string ensures CallsignOk(n, d) { assert CallsignOk(m, d); }
  }

  lemma TakeCreatedKeepsId(m: Link, c: string, id: nat)
    requires c in m.created && c !in m.shells && IdOk(m, id) && (forall d :: EntryOk(m.proxies, m.destructed, d))
    ensures IdOk(TakeCreated(m, c), id)
  {
    TrackSnoc(m.log, Created(|m.proxies|), id);
    assert EntryOk(m.proxies, m.destructed, c);
  }

  lemma TakeCreatedKeeps(m: Link, c: string)
    requires Inv(m) && c in m.created && CallsignOk(m, c)
    ensures Inv(TakeCreated(m, c))
  {
    var n := TakeCreated(m, c);
    forall d ensures EntryOk(m.proxies, m.destructed, d) { assert CallsignOk(m, d); }
    forall id: nat ensures IdOk(n, id) {
      assert IdOk(m, id);
      TakeCreatedKeepsId(m, c, id);
    }
    forall d: string ensures CallsignOk(n, d) { assert CallsignOk(m, d); }
  }

  lemma LoadedKeeps(m: Link, id: nat, answer: State)
    requires Inv(m) && id < |m.proxies|
    ensures Inv(Loaded(m, id, answer))
  {
    var n := Loaded(m, id, answer);
    forall i: nat ensures IdOk(n, i) { assert IdOk(m, i); }
    forall d: string ensures CallsignOk(n, d) { assert CallsignOk(m, d); }
  }

  lemma TakeReportKeepsId(m: Link, c: string, id: nat)
    requires c in m.shells && EntryOk(m.proxies, m.shells, c) && IdOk(m, m.shells[c]) && IdOk(m, id)
    ensures IdOk(TakeReport(m, c), id)
  {
    var p := m.proxies[m.shells[c]];
    if p.report != p.state {
      TrackSnoc(m.log, Reported(m.shells[c], p.report), id);
    }
  }

  lemma TakeReportKeeps(m: Link, c: string)
    requires Inv(m) && c in m.shells && CallsignOk(m, c)
    ensures Inv(TakeReport(m, c))
  {
    var n := TakeReport(m, c);
    forall id: nat ensures IdOk(n, id) {
      assert IdOk(m, id) && IdOk(m, m.shells[c]);
      TakeReportKeepsId(m, c, id);
    }
    forall d: string ensures CallsignOk(n, d) { assert CallsignOk(m, d); }
  }

  lemma ToldAllKeeps(m: Link)
    requires Inv(m)
    ensures Inv(ToldAll(m))
  {
    forall id: nat ensures IdOk(ToldAll(m), id) { assert IdOk(m, id); }
    forall d: string ensures CallsignOk(ToldAll(m), d) { assert CallsignOk(m, d); }
  }
}
