/**
 What the callback of the bridge link may be told about one mirrored plugin: it is created, its
 state is reported, never the same one twice in a row, and it is destroyed, after which nothing
 more is said of it.
 */
module Lifecycle {

  /** Plugin states; Unset is the value a proxy starts with, which no plugin has. */
  datatype State = Unset | Unavailable | Deactivated | Activated

  /** One call of the callback about the proxy with this number. */
  datatype Note = Created(id: nat) | Reported(id: nat, state: State) | Destroyed(id: nat)

  /** Where a proxy stands after the notes so far. */
  datatype Phase = Unborn | Alive(last: State) | Dead | Broken

  function Next(t: Phase, n: Note): Phase {
    match (t, n)
    case (Unborn, Created(_)) => Alive(Unset)
    case (Alive(last), Reported(_, state)) => if state == last || state == Unset then Broken else Alive(state)
    case (Alive(_), Destroyed(_)) => Dead
    case _ => Broken
  }

  function Track(log: seq<Note>, id: nat): Phase {
    if log == [] then Unborn
    else
      var before := Track(log[..|log| - 1], id);
      if log[|log| - 1].id == id then Next(before, log[|log| - 1]) else before
  }

  /** The notes about one proxy, in order. */
  function About(log: seq<Note>, id: nat): seq<Note> {
    if log == [] then []
    else
      var before := About(log[..|log| - 1], id);
      if log[|log| - 1].id == id then before + [log[|log| - 1]] else before
  }

  lemma TrackSnoc(log: seq<Note>, n: Note, id: nat)
    ensures Track(log + [n], id) == if n.id == id then Next(Track(log, id), n) else Track(log, id)
  {
    assert (log + [n])[..|log|] == log;
  }

  lemma AboutSnoc(log: seq<Note>, n: Note, id: nat)
    ensures About(log + [n], id) == if n.id == id then About(log, id) + [n] else About(log, id)
  {
    assert (log + [n])[..|log|] == log;
  }

  /** Created comes first and only then, a state differs from the one before, nothing follows Destroyed. */
  predicate Follows(notes: seq<Note>, i: nat)
    requires i < |notes|
  {
    && (notes[i].Created? <==> i == 0)
    && (notes[i].Reported? ==> notes[i].state != Unset)
    && (i > 0 ==> !notes[i - 1].Destroyed?)
    && (i > 0 && notes[i].Reported? && notes[i - 1].Reported? ==> notes[i].state != notes[i - 1].state)
  }

  predicate WellTold(notes: seq<Note>) {
    forall i :: 0 <= i < |notes| ==> Follows(notes, i)
  }

  /** The phase that a well told list of notes leads to. */
  function PhaseOf(notes: seq<Note>): Phase {
    if notes == [] then Unborn
    else
      match notes[|notes| - 1]
      case Created(_) => Alive(Unset)
      case Reported(_, state) => Alive(state)
      case Destroyed(_) => Dead
  }

  lemma WellToldSnoc(notes: seq<Note>, n: Note)
    ensures WellTold(notes + [n]) <==> WellTold(notes) && Next(PhaseOf(notes), n) != Broken
    ensures WellTold(notes + [n]) ==> PhaseOf(notes + [n]) == Next(PhaseOf(notes), n)
  {
    var more := notes + [n];
    forall i | 0 <= i < |notes| ensures Follows(notes, i) <==> Follows(more, i) {
      assert more[i] == notes[i] && (i > 0 ==> more[i - 1] == notes[i - 1]);
    }
    assert Follows(more, |notes|) ==> WellTold(notes) ==> Next(PhaseOf(notes), n) != Broken;
  }

  /** The automaton and the description agree. */
  lemma {:induction false} TrackedIsWellTold(log: seq<Note>, id: nat)
    ensures Track(log, id) != Broken <==> WellTold(About(log, id))
    ensures Track(log, id) != Broken ==> Track(log, id) == PhaseOf(About(log, id))
  {
    if log != [] {
      TrackedIsWellTold(log[..|log| - 1], id);
      WellToldSnoc(About(log[..|log| - 1], id), log[|log| - 1]);
    }
  }
}
