/**
 Runs of a state machine, given by which steps are enabled in a state and what a step makes of it.
 */
module StateMachine {

  predicate Runs<S, T>(enabled: (S, T) -> bool, apply: (S, T) -> S, s: S, steps: seq<T>)
    decreases |steps|
  {
    steps != [] ==> enabled(s, steps[0]) && Runs(enabled, apply, apply(s, steps[0]), steps[1..])
  }

  function After<S, T>(apply: (S, T) -> S, s: S, steps: seq<T>): S
    decreases |steps|
  {
    if steps == [] then s else After(apply, apply(s, steps[0]), steps[1..])
  }

  /** A run from one state to another. */
  ghost predicate Leads<S, T>(enabled: (S, T) -> bool, apply: (S, T) -> S, s: S, steps: seq<T>, n: S) {
    Runs(enabled, apply, s, steps) && After(apply, s, steps) == n
  }

  lemma OneStepLeads<S, T>(enabled: (S, T) -> bool, apply: (S, T) -> S, s: S, t: T)
    requires enabled(s, t)
    ensures Leads(enabled, apply, s, [t], apply(s, t))
  {
    assert [t][1..] == [];
  }

  lemma {:induction false} LeadsOn<S, T>(enabled: (S, T) -> bool, apply: (S, T) -> S,
      a: S, first: seq<T>, b: S, second: seq<T>, c: S)
    requires Leads(enabled, apply, a, first, b) && Leads(enabled, apply, b, second, c)
    ensures Leads(enabled, apply, a, first + second, c)
    decreases |first|
  {
    if first == [] {
      assert [] + second == second;
    } else {
      assert (first + second)[1..] == first[1..] + second && (first + second)[0] == first[0];
      LeadsOn(enabled, apply, apply(a, first[0]), first[1..], b, second, c);
    }
  }

  /** What every enabled step keeps, every run keeps. */
  lemma {:induction false} RunKeeps<S(!new), T(!new)>(enabled: (S, T) -> bool, apply: (S, T) -> S, inv: S -> bool,
      s: S, steps: seq<T>)
    requires forall x, t :: inv(x) && enabled(x, t) ==> inv(apply(x, t))
    requires inv(s) && Runs(enabled, apply, s, steps)
    ensures inv(After(apply, s, steps))
    decreases |steps|
  {
    if steps != [] {
      RunKeeps(enabled, apply, inv, apply(s, steps[0]), steps[1..]);
    }
  }

  lemma {:induction false} HistoryKeepsOn<S(!new), T(!new)>(enabled: (S, T) -> bool, apply: (S, T) -> S,
      inv: (S, seq<T>) -> bool, s: S, done: seq<T>, steps: seq<T>)
    requires forall x, h, t :: inv(x, h) && enabled(x, t) ==> inv(apply(x, t), h + [t])
    requires inv(s, done) && Runs(enabled, apply, s, steps)
    ensures inv(After(apply, s, steps), done + steps)
    decreases |steps|
  {
    if steps == [] {
      assert done + steps == done;
    } else {
      HistoryKeepsOn(enabled, apply, inv, apply(s, steps[0]), done + [steps[0]], steps[1..]);
      assert done + [steps[0]] + steps[1..] == done + steps;
    }
  }

  /** What holds of a state and the steps that led there, every run keeps. */
  lemma HistoryKeeps<S(!new), T(!new)>(enabled: (S, T) -> bool, apply: (S, T) -> S, inv: (S, seq<T>) -> bool,
      s: S, steps: seq<T>)
    requires forall x, h, t :: inv(x, h) && enabled(x, t) ==> inv(apply(x, t), h + [t])
    requires inv(s, []) && Runs(enabled, apply, s, steps)
    ensures inv(After(apply, s, steps), steps)
  {
    HistoryKeepsOn(enabled, apply, inv, s, [], steps);
    assert [] + steps == steps;
  }

  lemma {:induction false} AfterSnoc<S, T>(apply: (S, T) -> S, s: S, steps: seq<T>, t: T)
    ensures After(apply, s, steps + [t]) == apply(After(apply, s, steps), t)
    decreases |steps|
  {
    if steps == [] {
      assert [] + [t] == [t] && [t][1..] == [];
    } else {
      assert (steps + [t])[1..] == steps[1..] + [t];
      AfterSnoc(apply, apply(s, steps[0]), steps[1..], t);
    }
  }

  /** Of the steps of two kinds, the last one is of the first kind. */
  predicate LastIs<T>(steps: seq<T>, yes: T -> bool, no: T -> bool) {
    exists i :: 0 <= i < |steps| && yes(steps[i]) && forall j :: i < j < |steps| ==> !no(steps[j])
  }

  lemma LastIsSnoc<T>(steps: seq<T>, t: T, yes: T -> bool, no: T -> bool)
    ensures LastIs(steps + [t], yes, no) <==> yes(t) || (!no(t) && LastIs(steps, yes, no))
  {
    var more := steps + [t];
    assert more[|steps|] == t && forall j :: 0 <= j < |steps| ==> more[j] == steps[j];
    if !no(t) && LastIs(steps, yes, no) {
      var i :| 0 <= i < |steps| && yes(steps[i]) && forall j :: i < j < |steps| ==> !no(steps[j]);
      assert yes(more[i]);
    }
    if LastIs(more, yes, no) && !yes(t) {
      var i :| 0 <= i < |more| && yes(more[i]) && forall j :: i < j < |more| ==> !no(more[j]);
      assert yes(steps[i]) && !no(more[|steps|]);
    }
  }
}
