/** Runs of an actor: states one after the other, each made from the one before by an event. */
module Runs {
  import opened Common

  ghost predicate IsRun<S, E>(starts: S -> bool, next: (S, E, S) -> bool, states: seq<S>, events: seq<E>) {
    && |states| == |events| + 1
    && if events == [] then starts(states[0])
       else IsRun(starts, next, Front(states), Front(events)) && next(Last(Front(states)), Last(events), Last(states))
  }

  lemma GoesOn<S, E>(starts: S -> bool, next: (S, E, S) -> bool, states: seq<S>, events: seq<E>, e: E, t: S)
    requires IsRun(starts, next, states, events) && next(Last(states), e, t)
    ensures IsRun(starts, next, states + [t], events + [e])
  {
    assert Front(states + [t]) == states && Front(events + [e]) == events;
  }

  /** A run up to some state is a run. */
  lemma {:induction false} Prefix<S, E>(starts: S -> bool, next: (S, E, S) -> bool, states: seq<S>, events: seq<E>,
        i: nat)
    requires IsRun(starts, next, states, events) && i < |states|
    ensures IsRun(starts, next, states[..i + 1], events[..i])
    decreases |events|
  {
    if i == |events| {
      assert states[..i + 1] == states && events[..i] == events;
    } else {
      Prefix(starts, next, Front(states), Front(events), i);
      assert Front(states)[..i + 1] == states[..i + 1] && Front(events)[..i] == events[..i];
    }
  }

  /** The next event leads on from any state. */
  lemma Next<S, E>(starts: S -> bool, next: (S, E, S) -> bool, states: seq<S>, events: seq<E>, i: nat)
    requires IsRun(starts, next, states, events) && i < |events|
    ensures next(states[i], events[i], states[i + 1])
  {
    Prefix(starts, next, states, events, i + 1);
    var before, done := states[..i + 2], events[..i + 1];
    assert Last(done) == events[i] && Last(before) == states[i + 1] && Last(Front(before)) == states[i];
  }

  /** What each event keeps is kept from any state on. */
  lemma {:induction false} Kept<S>(keeps: S -> bool, states: seq<S>, i: nat, j: nat)
    requires i <= j < |states| && keeps(states[i])
    requires forall k :: i <= k < j && keeps(states[k]) ==> keeps(states[k + 1])
    ensures keeps(states[j])
    decreases j
  {
    if i < j {
      Kept(keeps, states, i, j - 1);
    }
  }

  /** Something happens in some state of a run at its next event. */
  ghost predicate Sometime<S, E>(happens: (S, E) -> bool, states: seq<S>, events: seq<E>)
    requires |states| == |events| + 1
  {
    exists i :: 0 <= i < |events| && happens(states[i], events[i])
  }

  lemma SometimeBefore<S, E>(happens: (S, E) -> bool, states: seq<S>, events: seq<E>)
    requires |states| == |events| + 1 && events != []
    ensures Sometime(happens, states, events) <==>
            Sometime(happens, Front(states), Front(events)) || happens(Last(Front(states)), Last(events))
  {
    var before, done := Front(states), Front(events);
    assert forall i :: 0 <= i < |done| ==> before[i] == states[i] && done[i] == events[i];
    assert Last(before) == states[|done|] && Last(events) == events[|done|];
  }
}
